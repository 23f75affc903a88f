/**
 * The metrics collector: the in-memory time series of samples, the
 * retention windows over it, trend classification, performance baselines
 * derived from a week of samples, and anomaly detection against them.
 *
 * Times are integer seconds; metric values are reals. The sample standard
 * deviation is a parameter `stdev` of the operations that use it, of which
 * only non-negativity is assumed. Means are exact.
 */
module Collector {
  import opened Common
  import opened Stats

  datatype Metric =
    | CpuPercent | MemoryPercent | DiskPercent
    | LoadAvg1 | LoadAvg5 | LoadAvg15
    | BytesSent | BytesRecv
    | ProcessCount | RunningProcesses | ZombieProcesses

  /** One `MetricData` sample. */
  datatype MetricPoint = MetricPoint(
    timestamp: int,
    cpuPercent: real,
    memoryPercent: real,
    diskPercent: real,
    loadAvg1: real,
    loadAvg5: real,
    loadAvg15: real,
    bytesSent: int,
    bytesRecv: int,
    processCount: int,
    runningProcesses: int,
    zombieProcesses: int)

  function MetricName(m: Metric): string
  {
    match m
    case CpuPercent => "cpu_percent"
    case MemoryPercent => "memory_percent"
    case DiskPercent => "disk_percent"
    case LoadAvg1 => "load_avg_1min"
    case LoadAvg5 => "load_avg_5min"
    case LoadAvg15 => "load_avg_15min"
    case BytesSent => "network_bytes_sent"
    case BytesRecv => "network_bytes_recv"
    case ProcessCount => "process_count"
    case RunningProcesses => "running_processes"
    case ZombieProcesses => "zombie_processes"
  }

  /** `getattr(point, name)` for a metric field. */
  function Value(p: MetricPoint, m: Metric): real
  {
    match m
    case CpuPercent => p.cpuPercent
    case MemoryPercent => p.memoryPercent
    case DiskPercent => p.diskPercent
    case LoadAvg1 => p.loadAvg1
    case LoadAvg5 => p.loadAvg5
    case LoadAvg15 => p.loadAvg15
    case BytesSent => p.bytesSent as real
    case BytesRecv => p.bytesRecv as real
    case ProcessCount => p.processCount as real
    case RunningProcesses => p.runningProcesses as real
    case ZombieProcesses => p.zombieProcesses as real
  }

  /** The metric keys of a sample's dictionary form (besides `timestamp`). */
  const FieldNames: set<string> := {
    "cpu_percent", "memory_percent", "disk_percent",
    "load_avg_1min", "load_avg_5min", "load_avg_15min",
    "network_bytes_sent", "network_bytes_recv",
    "process_count", "running_processes", "zombie_processes"}

  function ParseMetric(name: string): (r: Option<Metric>)
    ensures r.Some? <==> name in FieldNames
    ensures r.Some? ==> MetricName(r.value) == name
  {
    if name == "cpu_percent" then Some(CpuPercent)
    else if name == "memory_percent" then Some(MemoryPercent)
    else if name == "disk_percent" then Some(DiskPercent)
    else if name == "load_avg_1min" then Some(LoadAvg1)
    else if name == "load_avg_5min" then Some(LoadAvg5)
    else if name == "load_avg_15min" then Some(LoadAvg15)
    else if name == "network_bytes_sent" then Some(BytesSent)
    else if name == "network_bytes_recv" then Some(BytesRecv)
    else if name == "process_count" then Some(ProcessCount)
    else if name == "running_processes" then Some(RunningProcesses)
    else if name == "zombie_processes" then Some(ZombieProcesses)
    else None
  }

  lemma MetricNameRoundTrip(m: Metric)
    ensures MetricName(m) in FieldNames && ParseMetric(MetricName(m)) == Some(m)
  {
  }

  const RetentionDays: int := 30
  const BaselineUpdateInterval: int := 24
  const HourSeconds: int := 3600

  // ---------------------------------------------------------------------
  // Retention windows
  // ---------------------------------------------------------------------

  function Since(cutoff: int): MetricPoint -> bool
  {
    (p: MetricPoint) => p.timestamp >= cutoff
  }

  /** `_get_recent_data(hours)`: the samples no older than `hours` hours. */
  function RecentData(points: seq<MetricPoint>, now: int, hours: int): (r: seq<MetricPoint>)
    ensures forall p :: p in r <==> p in points && p.timestamp >= now - hours * HourSeconds
    ensures |r| <= |points|
  {
    FilterMembers(points, Since(now - hours * HourSeconds));
    Filter(points, Since(now - hours * HourSeconds))
  }

  predicate Chronological(points: seq<MetricPoint>)
  {
    forall i, j :: 0 <= i < j < |points| ==> points[i].timestamp <= points[j].timestamp
  }

  /** Samples are appended in time order, so the window keeps a suffix of
      them: the order is kept and nothing in between is dropped. */
  lemma RecentDataIsSuffix(points: seq<MetricPoint>, now: int, hours: int)
    requires Chronological(points)
    ensures var r := RecentData(points, now, hours); r == points[|points| - |r|..]
  {
    FilterUpwardClosed(points, Since(now - hours * HourSeconds));
  }

  /** A wider window keeps every sample a narrower one keeps. */
  lemma RecentDataMonotone(points: seq<MetricPoint>, now: int, h1: int, h2: int)
    requires h1 <= h2
    ensures forall p :: p in RecentData(points, now, h1) ==> p in RecentData(points, now, h2)
  {
  }

  // ---------------------------------------------------------------------
  // Historical rows
  // ---------------------------------------------------------------------

  /** A sample in dictionary form: the timestamp and some metric keys. */
  datatype Row = Row(timestamp: int, fields: map<string, real>)

  function FieldsOf(p: MetricPoint, names: set<string>): map<string, real>
  {
    map name | name in names && name in FieldNames :: name := Value(p, ParseMetric(name).value)
  }

  /** One row of `get_historical_data`: every key when no metric list (or an
      empty one) is given, otherwise the timestamp and only those requested
      names that are keys of the sample. */
  function RowOf(p: MetricPoint, metrics: seq<string>): Row
  {
    Row(p.timestamp, if metrics == [] then FieldsOf(p, FieldNames) else FieldsOf(p, set m | m in metrics))
  }

  function HistoricalRows(points: seq<MetricPoint>, metrics: seq<string>): (r: seq<Row>)
    ensures |r| == |points|
  {
    if points == [] then []
    else HistoricalRows(points[..|points| - 1], metrics) + [RowOf(points[|points| - 1], metrics)]
  }

  /** The loop of `get_historical_data` over the recent samples. */
  method RowsOf(recent: seq<MetricPoint>, metrics: seq<string>) returns (rows: seq<Row>)
    ensures rows == HistoricalRows(recent, metrics)
  {
    rows := [];
    var i := 0;
    while i < |recent|
      invariant 0 <= i <= |recent|
      invariant rows == HistoricalRows(recent[..i], metrics)
    {
      HistoricalRowsPrefix(recent, metrics, i);
      rows := rows + [RowOf(recent[i], metrics)];
      i := i + 1;
    }
    assert recent[..i] == recent;
  }

  lemma HistoricalRowsPrefix(points: seq<MetricPoint>, metrics: seq<string>, i: int)
    requires 0 <= i < |points|
    ensures HistoricalRows(points[..i + 1], metrics) == HistoricalRows(points[..i], metrics) + [RowOf(points[i], metrics)]
  {
    assert points[..i + 1][..i] == points[..i];
  }

  lemma {:induction false} HistoricalRowsAt(points: seq<MetricPoint>, metrics: seq<string>, i: int)
    requires 0 <= i < |points|
    ensures HistoricalRows(points, metrics)[i] == RowOf(points[i], metrics)
    decreases |points|
  {
    if i < |points| - 1 {
      HistoricalRowsAt(points[..|points| - 1], metrics, i);
    }
  }

  /** Each row carries its sample's timestamp and values; with a metric list
      its keys are exactly the requested names that are metric keys. */
  lemma HistoricalRowFacts(points: seq<MetricPoint>, metrics: seq<string>, i: int)
    requires 0 <= i < |points|
    ensures var row := HistoricalRows(points, metrics)[i];
      row.timestamp == points[i].timestamp &&
      (metrics == [] ==> row.fields.Keys == FieldNames) &&
      (metrics != [] ==> forall name :: name in row.fields <==> name in metrics && name in FieldNames) &&
      (forall m: Metric :: MetricName(m) in row.fields ==> row.fields[MetricName(m)] == Value(points[i], m))
  {
    HistoricalRowsAt(points, metrics, i);
    forall m: Metric
      ensures ParseMetric(MetricName(m)) == Some(m)
    {
      MetricNameRoundTrip(m);
    }
  }

  // ---------------------------------------------------------------------
  // Trends
  // ---------------------------------------------------------------------

  datatype Direction = Stable | Rising | Falling

  function DirectionValue(d: Direction): string
  {
    match d
    case Stable => "穩定"
    case Rising => "上升"
    case Falling => "下降"
  }

  /** A change under 5% in either direction is stable. */
  function Classify(pct: real): (d: Direction)
    ensures d == Stable <==> -5.0 < pct < 5.0
    ensures d == Rising <==> pct >= 5.0
    ensures d == Falling <==> pct <= -5.0
  {
    if AbsR(pct) < 5.0 then Stable else if pct > 0.0 then Rising else Falling
  }

  /** The change of the second half's mean relative to the first half's, in
      percent; 0 when the first half's mean is 0. */
  function ChangePercent(first: seq<real>, second: seq<real>): real
    requires |first| > 0 && |second| > 0
  {
    var a := Mean(first);
    var b := Mean(second);
    if a != 0.0 then (b - a) / a * 100.0 else 0.0
  }

  /** `sum(range(n))`, in closed form. */
  function RangeSum(n: nat): real
  {
    (n * (n - 1)) as real / 2.0
  }

  /** `sum(x * x for x in range(n))`, in closed form. */
  function RangeSquareSum(n: nat): real
  {
    ((n - 1) * n * (2 * n - 1)) as real / 6.0
  }

  /** `sum(x * y for x, y in zip(range(n), ys))` */
  function WeightedSum(ys: seq<real>): real
  {
    if ys == [] then 0.0 else WeightedSum(ys[..|ys| - 1]) + ((|ys| - 1) as real) * ys[|ys| - 1]
  }

  /** The least-squares line's value at `n` from the sums over `n`
      points: count, `sum x`, `sum x*x`, `sum y`, `sum x*y`; the fallback
      when the normal equations are singular. */
  function Regression(n: real, sx: real, sx2: real, sy: real, sxy: real, fallback: real): real
  {
    if n * sx2 - sx * sx != 0.0 && n != 0.0 then
      var slope := (n * sxy - sx * sy) / (n * sx2 - sx * sx);
      var intercept := (sy - slope * sx) / n;
      slope * n + intercept
    else fallback
  }

  /** The line fitted through `(i, ys[i])`, evaluated at `|ys|`. */
  function LinearPrediction(ys: seq<real>, fallback: real): real
  {
    Regression(|ys| as real, RangeSum(|ys|), RangeSquareSum(|ys|), Sum(ys), WeightedSum(ys), fallback)
  }

  lemma RangeSumsStep(n: nat)
    requires n > 0
    ensures RangeSum(n) == RangeSum(n - 1) + (n - 1) as real
    ensures RangeSquareSum(n) == RangeSquareSum(n - 1) + ((n - 1) * (n - 1)) as real
  {
    assert n * (n - 1) == (n - 1) * (n - 2) + 2 * (n - 1);
    assert (n - 1) * n * (2 * n - 1) == (n - 2) * (n - 1) * (2 * n - 3) + 6 * ((n - 1) * (n - 1));
  }

  /** The sums `sum y` and `sum x*y` of `k` points on the line `a + b*x`. */
  predicate LineSums(k: nat, a: real, b: real, sy: real, sxy: real)
  {
    sy == (k as real) * a + b * RangeSum(k) && sxy == a * RangeSum(k) + b * RangeSquareSum(k)
  }

  lemma LineSumsStep(k: nat, a: real, b: real, sy: real, sxy: real, y: real)
    requires k > 0
    requires LineSums(k - 1, a, b, sy, sxy)
    requires y == a + b * ((k - 1) as real)
    ensures LineSums(k, a, b, sy + y, sxy + ((k - 1) as real) * y)
  {
    RangeSumsStep(k);
    var x := (k - 1) as real;
    assert x * (a + b * x) == a * x + b * ((k - 1) * (k - 1)) as real;
    assert (k as real) * a == x * a + a;
  }

  lemma {:induction false} SumsOfLine(ys: seq<real>, a: real, b: real)
    requires forall i :: 0 <= i < |ys| ==> ys[i] == a + b * (i as real)
    ensures LineSums(|ys|, a, b, Sum(ys), WeightedSum(ys))
  {
    if ys != [] {
      var n := |ys|;
      var init := ys[..n - 1];
      SumsOfLine(init, a, b);
      LineSumsStep(n, a, b, Sum(init), WeightedSum(init), ys[n - 1]);
    }
  }

  lemma PositiveProduct(x: int, y: int)
    requires x > 0 && y > 0
    ensures x * y > 0
  {
  }

  /** The normal equations of two or more points are regular. */
  lemma RegressionDenominator(k: nat)
    requires k >= 2
    ensures (k as real) * RangeSquareSum(k) - RangeSum(k) * RangeSum(k) > 0.0
  {
    var n, sx, sx2 := k as real, RangeSum(k), RangeSquareSum(k);
    var d := n * sx2 - sx * sx;
    assert 12.0 * d == 2.0 * n * (6.0 * sx2) - 3.0 * (2.0 * sx) * (2.0 * sx);
    assert 12.0 * d == (k * k * ((k - 1) * (k + 1))) as real;
    PositiveProduct(k * k, (k - 1) * (k + 1));
  }

  lemma CancelDivision(x: real, n: real)
    requires n != 0.0
    ensures (n * x) / n == x
  {
  }

  lemma RegressionNumerator(n: real, a: real, b: real, sx: real, sx2: real)
    ensures n * (a * sx + b * sx2) - sx * (n * a + b * sx) == b * (n * sx2 - sx * sx)
  {
  }

  lemma RegressionClosedForm(n: real, a: real, b: real, sx: real, sx2: real, sy: real, sxy: real, fallback: real)
    requires n > 0.0 && n * sx2 - sx * sx > 0.0
    requires sy == n * a + b * sx && sxy == a * sx + b * sx2
    ensures Regression(n, sx, sx2, sy, sxy, fallback) == a + b * n
  {
    var d := n * sx2 - sx * sx;
    RegressionNumerator(n, a, b, sx, sx2);
    assert n * sxy - sx * sy == b * d;
    var slope := (n * sxy - sx * sy) / d;
    assert slope == b;
    assert sy - slope * sx == n * a;
    CancelDivision(a, n);
  }

  lemma RegressionOnLine(k: nat, a: real, b: real, sy: real, sxy: real, fallback: real)
    requires k >= 2
    requires LineSums(k, a, b, sy, sxy)
    requires (k as real) * RangeSquareSum(k) - RangeSum(k) * RangeSum(k) > 0.0
    ensures Regression(k as real, RangeSum(k), RangeSquareSum(k), sy, sxy, fallback) == a + b * (k as real)
  {
    RegressionClosedForm(k as real, a, b, RangeSum(k), RangeSquareSum(k), sy, sxy, fallback);
  }

  /** Points lying on a line are extrapolated along it: the regression
      recovers the line exactly. */
  lemma LinearPredictionOfLine(ys: seq<real>, a: real, b: real, fallback: real)
    requires |ys| >= 2
    requires forall i :: 0 <= i < |ys| ==> ys[i] == a + b * (i as real)
    ensures LinearPrediction(ys, fallback) == a + b * (|ys| as real)
  {
    SumsOfLine(ys, a, b);
    RegressionDenominator(|ys|);
    RegressionOnLine(|ys|, a, b, Sum(ys), WeightedSum(ys), fallback);
  }

  /** One `TrendAnalysis` record. */
  datatype Trend = Trend(
    metric: Metric,
    direction: Direction,
    percentage: real,
    average: real,
    minimum: real,
    maximum: real,
    deviation: real,
    prediction: real)

  /** The value series of one metric. */
  function Values(points: seq<MetricPoint>, m: Metric): (vs: seq<real>)
    ensures |vs| == |points|
    ensures forall i :: 0 <= i < |points| ==> vs[i] == Value(points[i], m)
  {
    seq(|points|, i requires 0 <= i < |points| => Value(points[i], m))
  }

  function TrendOf(m: Metric, values: seq<real>, stdev: seq<real> -> real): Trend
    requires |values| > 0
  {
    var avg := Mean(values);
    var half := |values| / 2;
    var first := values[..half];
    var second := values[half..];
    var pct := if |first| > 0 && |second| > 0 then ChangePercent(first, second) else 0.0;
    var direction := if |first| > 0 && |second| > 0 then Classify(pct) else Stable;
    var prediction := if |values| >= 3 then LinearPrediction(LastN(values, 5), avg) else avg;
    Trend(m, direction, pct, avg, SeqMin(values), SeqMax(values),
          if |values| > 1 then stdev(values) else 0.0, prediction)
  }

  /** With at least two values both halves are non-empty, so the direction
      classifies the change between the halves' means; the average lies in
      [min, max] and the deviation is the sample deviation. */
  lemma TrendFacts(m: Metric, values: seq<real>, stdev: seq<real> -> real)
    requires |values| >= 2
    ensures var t := TrendOf(m, values, stdev); var half := |values| / 2;
      0 < half < |values| &&
      t.metric == m &&
      t.percentage == ChangePercent(values[..half], values[half..]) &&
      t.direction == Classify(t.percentage) &&
      (Mean(values[..half]) == 0.0 ==> t.percentage == 0.0 && t.direction == Stable) &&
      t.minimum <= t.average <= t.maximum &&
      t.minimum in values && t.maximum in values &&
      t.deviation == stdev(values)
  {
    MeanBounds(values);
    SeqMinMax(values);
  }

  /** The metrics `get_trend_analysis` covers, in its order. */
  const TrendMetrics: seq<Metric> := [CpuPercent, MemoryPercent, DiskPercent, LoadAvg1, ProcessCount]

  /** `get_trend_analysis` over the window `recent`. */
  function TrendAnalysis(recent: seq<MetricPoint>, stdev: seq<real> -> real): (r: seq<Trend>)
    ensures |recent| < 2 ==> r == []
    ensures |recent| >= 2 ==> |r| == |TrendMetrics|
  {
    if |recent| < 2 then []
    else seq(|TrendMetrics|, k requires 0 <= k < |TrendMetrics| => TrendOf(TrendMetrics[k], Values(recent, TrendMetrics[k]), stdev))
  }

  /** The analysis of the first `k + 1` metrics extends that of the first
      `k` by the trend of metric `k`. */
  lemma TrendAnalysisStep(recent: seq<MetricPoint>, stdev: seq<real> -> real, k: int)
    requires |recent| >= 2 && 0 <= k < |TrendMetrics|
    ensures TrendAnalysis(recent, stdev)[..k + 1] == TrendAnalysis(recent, stdev)[..k] + [TrendOf(TrendMetrics[k], Values(recent, TrendMetrics[k]), stdev)]
  {
    PrefixSnoc(TrendAnalysis(recent, stdev), k);
  }

  lemma TrendAnalysisFacts(recent: seq<MetricPoint>, stdev: seq<real> -> real, k: int)
    requires |recent| >= 2 && 0 <= k < |TrendMetrics|
    ensures var t := TrendAnalysis(recent, stdev)[k]; var vs := Values(recent, TrendMetrics[k]);
      t.metric == TrendMetrics[k] && t == TrendOf(TrendMetrics[k], vs, stdev) &&
      t.direction == Classify(t.percentage) && t.minimum <= t.average <= t.maximum
  {
    TrendFacts(TrendMetrics[k], Values(recent, TrendMetrics[k]), stdev);
  }

  // ---------------------------------------------------------------------
  // Baselines and anomalies
  // ---------------------------------------------------------------------

  datatype Severity = Low | Medium | High

  function SeverityValue(s: Severity): string
  {
    match s
    case Low => "low"
    case Medium => "medium"
    case High => "high"
  }

  /** One `PerformanceBaseline`. */
  datatype Baseline = Baseline(
    metric: Metric,
    average: real,
    std: real,
    upper: real,
    lower: real,
    confidence: real,
    sampleCount: nat,
    lastUpdated: int)

  /** One `AnomalyDetection`; `above` is the description's direction (too
      high rather than too low). */
  datatype Anomaly = Anomaly(
    timestamp: int,
    metric: Metric,
    actual: real,
    expected: real,
    score: real,
    isAnomaly: bool,
    severity: Severity,
    above: bool)

  /** The metrics that get baselines and are checked for anomalies. */
  const BaselineMetrics: seq<Metric> := [CpuPercent, MemoryPercent, DiskPercent, LoadAvg1]

  const MinBaselineSamples: int := 24

  const Epsilon: real := 0.000001

  /** The baseline's scale is not the one value that makes the division by
      `std + 1e-6` fail. */
  predicate Divisible(b: Baseline)
  {
    b.std + Epsilon != 0.0
  }

  predicate AllDivisible(baselines: map<Metric, Baseline>)
  {
    forall m :: m in baselines ==> Divisible(baselines[m])
  }

  function Deviation(v: real, b: Baseline): real
    requires Divisible(b)
  {
    AbsR(v - b.average) / (b.std + Epsilon)
  }

  function SeverityOf(score: real): (s: Severity)
    ensures s == High <==> score > 3.0
    ensures s == Medium <==> 2.0 < score <= 3.0
    ensures s == Low <==> score <= 2.0
  {
    if score > 3.0 then High else if score > 2.0 then Medium else Low
  }

  /** The check of one metric's value against its baseline. */
  function AnomalyAt(m: Metric, b: Baseline, v: real, t: int): (r: Option<Anomaly>)
    requires Divisible(b)
    ensures r.Some? <==> v > b.upper || v < b.lower
    ensures r.Some? ==> r.value.timestamp == t && r.value.metric == m && r.value.isAnomaly
    ensures r.Some? ==> r.value.actual == v && r.value.expected == b.average
    ensures r.Some? ==> r.value.severity == SeverityOf(Deviation(v, b))
    ensures r.Some? ==> r.value.score <= 1.0 && (Deviation(v, b) <= 1.0 ==> r.value.score == Deviation(v, b))
    ensures r.Some? ==> (r.value.above <==> v > b.average)
  {
    if v > b.upper || v < b.lower then
      var score := Deviation(v, b);
      Some(Anomaly(t, m, v, b.average, MinR(score, 1.0), true, SeverityOf(score), v > b.average))
    else None
  }

  /** The anomalies `_detect_anomalies` records for sample `p`, checking the
      metrics `ms` in order and skipping those without a baseline. */
  function AnomaliesIn(baselines: map<Metric, Baseline>, p: MetricPoint, ms: seq<Metric>): (r: seq<Anomaly>)
    requires AllDivisible(baselines)
    ensures |r| <= |ms|
  {
    if ms == [] then []
    else
      var m := ms[|ms| - 1];
      AnomaliesIn(baselines, p, ms[..|ms| - 1]) +
      (if m in baselines && AnomalyAt(m, baselines[m], Value(p, m), p.timestamp).Some?
       then [AnomalyAt(m, baselines[m], Value(p, m), p.timestamp).value] else [])
  }

  function Anomalies(baselines: map<Metric, Baseline>, p: MetricPoint): seq<Anomaly>
    requires AllDivisible(baselines)
  {
    AnomaliesIn(baselines, p, BaselineMetrics)
  }

  /** Every recorded anomaly is a checked metric that has a baseline and
      lies outside its band; conversely every such metric is recorded. */
  lemma {:induction false} AnomaliesInFacts(baselines: map<Metric, Baseline>, p: MetricPoint, ms: seq<Metric>)
    requires AllDivisible(baselines)
    ensures forall a :: a in AnomaliesIn(baselines, p, ms) ==>
      a.metric in ms && a.metric in baselines && a.timestamp == p.timestamp &&
      a.actual == Value(p, a.metric) &&
      (a.actual > baselines[a.metric].upper || a.actual < baselines[a.metric].lower)
    ensures forall m :: (m in ms && m in baselines &&
      (Value(p, m) > baselines[m].upper || Value(p, m) < baselines[m].lower)) ==>
      AnomalyAt(m, baselines[m], Value(p, m), p.timestamp).value in AnomaliesIn(baselines, p, ms)
  {
    if ms != [] {
      var init := ms[..|ms| - 1];
      AnomaliesInFacts(baselines, p, init);
      assert forall m :: m in ms ==> m in init || m == ms[|ms| - 1];
    }
  }

  predicate WithinBands(baselines: map<Metric, Baseline>, p: MetricPoint)
  {
    forall m :: m in baselines ==> baselines[m].lower <= Value(p, m) <= baselines[m].upper
  }

  lemma {:induction false} WithinBandsNormalIn(baselines: map<Metric, Baseline>, p: MetricPoint, ms: seq<Metric>)
    requires AllDivisible(baselines) && WithinBands(baselines, p)
    ensures AnomaliesIn(baselines, p, ms) == []
  {
    if ms != [] {
      WithinBandsNormalIn(baselines, p, ms[..|ms| - 1]);
    }
  }

  /** A sample inside every band is never an anomaly. */
  lemma WithinBandIsNormal(baselines: map<Metric, Baseline>, p: MetricPoint)
    requires AllDivisible(baselines) && WithinBands(baselines, p)
    ensures Anomalies(baselines, p) == []
  {
    WithinBandsNormalIn(baselines, p, BaselineMetrics);
  }

  /** `_update_baselines` for one metric over a non-empty series. */
  function BaselineOf(m: Metric, values: seq<real>, stdev: seq<real> -> real, now: int): Baseline
    requires |values| > 0
  {
    var avg := Mean(values);
    var std := if |values| > 1 then stdev(values) else 0.0;
    Baseline(m, avg, std, avg + 2.0 * std, MaxR(0.0, avg - 2.0 * std), 0.95, |values|, now)
  }

  /** The band is two deviations around the mean, clamped below at zero;
      for non-negative samples the mean lies in the band, so a sample at
      the mean is never flagged. */
  lemma BaselineFacts(m: Metric, values: seq<real>, stdev: seq<real> -> real, now: int)
    requires |values| > 1
    requires forall s :: stdev(s) >= 0.0
    ensures var b := BaselineOf(m, values, stdev, now);
      b.metric == m && b.average == Mean(values) && b.std == stdev(values) &&
      b.upper == b.average + 2.0 * b.std &&
      b.lower == MaxR(0.0, b.average - 2.0 * b.std) && b.lower >= 0.0 &&
      b.sampleCount == |values| && b.lastUpdated == now && b.confidence == 0.95 &&
      Divisible(b) &&
      ((forall x :: x in values ==> x >= 0.0) ==> b.lower <= b.average <= b.upper)
  {
    if forall x :: x in values ==> x >= 0.0 {
      MeanNonNegative(values);
    }
  }

  /** Baselines for the metrics `ms`, set one after the other. */
  function SetBaselines(baselines: map<Metric, Baseline>, data: seq<MetricPoint>, ms: seq<Metric>,
                        stdev: seq<real> -> real, now: int): map<Metric, Baseline>
    requires |data| > 0
  {
    if ms == [] then baselines
    else
      var m := ms[|ms| - 1];
      SetBaselines(baselines, data, ms[..|ms| - 1], stdev, now)[m := BaselineOf(m, Values(data, m), stdev, now)]
  }

  lemma SetBaselinesStep(baselines: map<Metric, Baseline>, data: seq<MetricPoint>, ms: seq<Metric>, k: int,
                         stdev: seq<real> -> real, now: int)
    requires |data| > 0 && 0 <= k < |ms|
    ensures SetBaselines(baselines, data, ms[..k + 1], stdev, now) ==
      SetBaselines(baselines, data, ms[..k], stdev, now)[ms[k] := BaselineOf(ms[k], Values(data, ms[k]), stdev, now)]
  {
    assert ms[..k + 1][..k] == ms[..k];
  }

  /** A fresh baseline keeps every deviation non-negative and every
      deviation's divisor non-zero. */
  lemma BaselineKeepsValid(baselines: map<Metric, Baseline>, m: Metric, values: seq<real>, stdev: seq<real> -> real, now: int)
    requires |values| > 0
    requires forall s :: stdev(s) >= 0.0
    requires AllDivisible(baselines) && forall n :: n in baselines ==> baselines[n].std >= 0.0
    ensures var b := baselines[m := BaselineOf(m, values, stdev, now)];
      AllDivisible(b) && forall n :: n in b ==> b[n].std >= 0.0
  {
    assert BaselineOf(m, values, stdev, now).std >= 0.0;
  }

  /** `_update_baselines`: nothing changes with fewer than 24 samples in the
      last seven days; otherwise each of the four metrics gets a fresh
      baseline over those samples. */
  function UpdatedBaselines(baselines: map<Metric, Baseline>, points: seq<MetricPoint>,
                            stdev: seq<real> -> real, now: int): map<Metric, Baseline>
  {
    var data := RecentData(points, now, 24 * 7);
    if |data| < MinBaselineSamples then baselines else SetBaselines(baselines, data, BaselineMetrics, stdev, now)
  }

  lemma {:induction false} SetBaselinesFacts(baselines: map<Metric, Baseline>, data: seq<MetricPoint>, ms: seq<Metric>,
                                             stdev: seq<real> -> real, now: int)
    requires |data| > 0
    ensures var r := SetBaselines(baselines, data, ms, stdev, now);
      r.Keys == baselines.Keys + set m | m in ms
    ensures var r := SetBaselines(baselines, data, ms, stdev, now);
      forall m :: m in ms ==> r[m] == BaselineOf(m, Values(data, m), stdev, now)
    ensures var r := SetBaselines(baselines, data, ms, stdev, now);
      forall m :: m in baselines && m !in ms ==> r[m] == baselines[m]
  {
    if ms != [] {
      SetBaselinesFacts(baselines, data, ms[..|ms| - 1], stdev, now);
      assert forall m :: m in ms ==> m in ms[..|ms| - 1] || m == ms[|ms| - 1];
    }
  }

  /** With too few recent samples nothing changes; otherwise the four
      metrics get baselines and every other one is kept. */
  lemma UpdatedBaselinesFacts(baselines: map<Metric, Baseline>, points: seq<MetricPoint>,
                              stdev: seq<real> -> real, now: int)
    ensures |RecentData(points, now, 24 * 7)| < 24 ==> UpdatedBaselines(baselines, points, stdev, now) == baselines
    ensures |RecentData(points, now, 24 * 7)| >= 24 ==>
      UpdatedBaselines(baselines, points, stdev, now).Keys == baselines.Keys + {CpuPercent, MemoryPercent, DiskPercent, LoadAvg1}
    ensures |RecentData(points, now, 24 * 7)| >= 24 ==>
      forall m :: m in baselines && m !in BaselineMetrics ==> UpdatedBaselines(baselines, points, stdev, now)[m] == baselines[m]
  {
    var data := RecentData(points, now, 24 * 7);
    if |data| >= 24 {
      assert UpdatedBaselines(baselines, points, stdev, now) == SetBaselines(baselines, data, BaselineMetrics, stdev, now);
      SetBaselinesFacts(baselines, data, BaselineMetrics, stdev, now);
      BaselineMetricsSet();
    }
  }

  lemma BaselineMetricsSet()
    ensures (set m | m in BaselineMetrics) == {CpuPercent, MemoryPercent, DiskPercent, LoadAvg1}
  {
  }

  /** A renewed baseline is the band over the last week's samples. */
  lemma RenewedBaseline(baselines: map<Metric, Baseline>, points: seq<MetricPoint>,
                        stdev: seq<real> -> real, now: int, m: Metric)
    requires forall s :: stdev(s) >= 0.0
    requires m in BaselineMetrics && |RecentData(points, now, 24 * 7)| >= 24
    ensures m in UpdatedBaselines(baselines, points, stdev, now)
    ensures var data := RecentData(points, now, 24 * 7); var b := UpdatedBaselines(baselines, points, stdev, now)[m];
      b == BaselineOf(m, Values(data, m), stdev, now) &&
      b.average == Mean(Values(data, m)) && b.std >= 0.0 &&
      b.upper == b.average + 2.0 * b.std && b.lower == MaxR(0.0, b.average - 2.0 * b.std) &&
      b.sampleCount == |data| && b.lastUpdated == now
  {
    var data := RecentData(points, now, 24 * 7);
    SetBaselinesFacts(baselines, data, BaselineMetrics, stdev, now);
    BaselineFacts(m, Values(data, m), stdev, now);
  }

  /** `_should_update_baselines`: no baselines yet, or one is at least
      `baseline_update_interval` hours old. */
  predicate ShouldUpdate(baselines: map<Metric, Baseline>, now: int)
  {
    baselines == map[] ||
    exists m :: m in baselines && now - baselines[m].lastUpdated >= BaselineUpdateInterval * HourSeconds
  }

  function AnomalySince(cutoff: int): Anomaly -> bool
  {
    (a: Anomaly) => a.timestamp >= cutoff
  }

  /** The collector's whole state. */
  datatype CollectorState = CollectorState(
    metricsData: seq<MetricPoint>,
    baselines: map<Metric, Baseline>,
    anomalies: seq<Anomaly>)

  /** The state after `collect_metrics` took sample `p`: the sample is
      appended, checked against the current baselines, and the baselines
      are then renewed when they are due. */
  function Collected(s: CollectorState, p: MetricPoint, stdev: seq<real> -> real, now: int): CollectorState
    requires AllDivisible(s.baselines)
  {
    var data := s.metricsData + [p];
    var anomalies := s.anomalies + Anomalies(s.baselines, p);
    CollectorState(data, if ShouldUpdate(s.baselines, now) then UpdatedBaselines(s.baselines, data, stdev, now) else s.baselines,
                   anomalies)
  }

  /** Collecting never drops samples or anomalies, and adds at most one
      anomaly per checked metric. */
  lemma CollectedFacts(s: CollectorState, p: MetricPoint, stdev: seq<real> -> real, now: int)
    requires AllDivisible(s.baselines)
    ensures var s' := Collected(s, p, stdev, now);
      s'.metricsData == s.metricsData + [p] &&
      s'.anomalies[..|s.anomalies|] == s.anomalies &&
      |s'.anomalies| <= |s.anomalies| + 4 &&
      (!ShouldUpdate(s.baselines, now) ==> s'.baselines == s.baselines)
  {
  }

  class MetricsCollector {
    var metricsData: seq<MetricPoint>
    var baselines: map<Metric, Baseline>
    var anomalies: seq<Anomaly>

    function State(): CollectorState
      reads this
    {
      CollectorState(metricsData, baselines, anomalies)
    }

    /** Every baseline has a non-negative deviation. */
    ghost predicate Valid()
      reads this
    {
      AllDivisible(baselines) && forall m :: m in baselines ==> baselines[m].std >= 0.0
    }

    constructor()
      ensures State() == CollectorState([], map[], [])
      ensures Valid()
    {
      metricsData := [];
      baselines := map[];
      anomalies := [];
    }

    /** `_cleanup_old_data`: drop samples older than the retention period. */
    method CleanupOldData(now: int)
      modifies this
      ensures metricsData == RecentData(old(metricsData), now, 24 * RetentionDays)
      ensures baselines == old(baselines) && anomalies == old(anomalies)
    {
      metricsData := RecentData(metricsData, now, 24 * RetentionDays);
    }

    /** `_get_recent_data` */
    function GetRecentData(hours: int, now: int): seq<MetricPoint>
      reads this
    {
      RecentData(metricsData, now, hours)
    }

    /** `get_historical_data` */
    method GetHistoricalData(hours: int, metrics: seq<string>, now: int) returns (rows: seq<Row>)
      ensures rows == HistoricalRows(RecentData(metricsData, now, hours), metrics)
    {
      var recent := RecentData(metricsData, now, hours);
      rows := [];
      if |recent| == 0 {
        return;
      }
      rows := RowsOf(recent, metrics);
    }

    /** `get_trend_analysis` */
    method GetTrendAnalysis(hours: int, now: int, stdev: seq<real> -> real) returns (trends: seq<Trend>)
      ensures trends == TrendAnalysis(RecentData(metricsData, now, hours), stdev)
    {
      var recent := RecentData(metricsData, now, hours);
      if |recent| < 2 {
        return [];
      }
      trends := [];
      for k := 0 to |TrendMetrics|
        invariant trends == TrendAnalysis(recent, stdev)[..k]
      {
        var values := Values(recent, TrendMetrics[k]);
        TrendAnalysisStep(recent, stdev, k);
        trends := trends + [TrendOf(TrendMetrics[k], values, stdev)];
      }
      assert TrendAnalysis(recent, stdev)[..|TrendMetrics|] == TrendAnalysis(recent, stdev);
    }

    /** `_detect_anomalies`: the sample's anomalies are appended. */
    method DetectAnomalies(p: MetricPoint)
      requires Valid()
      modifies this
      ensures metricsData == old(metricsData) && baselines == old(baselines)
      ensures anomalies == old(anomalies) + Anomalies(baselines, p)
    {
      ghost var before := anomalies;
      for k := 0 to |BaselineMetrics|
        invariant metricsData == old(metricsData) && baselines == old(baselines)
        invariant anomalies == before + AnomaliesIn(baselines, p, BaselineMetrics[..k])
      {
        var m := BaselineMetrics[k];
        assert BaselineMetrics[..k + 1][..k] == BaselineMetrics[..k];
        if m in baselines {
          var found := AnomalyAt(m, baselines[m], Value(p, m), p.timestamp);
          if found.Some? {
            anomalies := anomalies + [found.value];
          }
        }
      }
      assert BaselineMetrics[..|BaselineMetrics|] == BaselineMetrics;
    }

    /** `_should_update_baselines` */
    method ShouldUpdateBaselines(now: int) returns (r: bool)
      ensures r <==> ShouldUpdate(baselines, now)
    {
      if baselines == map[] {
        return true;
      }
      var rest := baselines.Keys;
      while rest != {}
        invariant rest <= baselines.Keys
        invariant forall m :: m in baselines && m !in rest ==>
          now - baselines[m].lastUpdated < BaselineUpdateInterval * HourSeconds
        decreases rest
      {
        var m :| m in rest;
        if now - baselines[m].lastUpdated >= BaselineUpdateInterval * HourSeconds {
          return true;
        }
        rest := rest - {m};
      }
      return false;
    }

    /** `_update_baselines` */
    method UpdateBaselines(stdev: seq<real> -> real, now: int)
      requires Valid()
      requires forall s :: stdev(s) >= 0.0
      modifies this
      ensures baselines == UpdatedBaselines(old(baselines), metricsData, stdev, now)
      ensures metricsData == old(metricsData) && anomalies == old(anomalies)
      ensures Valid()
    {
      var data := RecentData(metricsData, now, 24 * 7);
      if |data| < MinBaselineSamples {
        return;
      }
      ghost var before := baselines;
      for k := 0 to |BaselineMetrics|
        invariant metricsData == old(metricsData) && anomalies == old(anomalies)
        invariant baselines == SetBaselines(before, data, BaselineMetrics[..k], stdev, now)
        invariant Valid()
      {
        var m := BaselineMetrics[k];
        var values := Values(data, m);
        SetBaselinesStep(before, data, BaselineMetrics, k, stdev, now);
        BaselineKeepsValid(baselines, m, values, stdev, now);
        baselines := baselines[m := BaselineOf(m, values, stdev, now)];
      }
      assert BaselineMetrics[..|BaselineMetrics|] == BaselineMetrics;
    }

    /** `collect_metrics` once the sample `p` (taken at `now`) is in hand. */
    method CollectMetrics(p: MetricPoint, stdev: seq<real> -> real, now: int)
      requires Valid()
      requires forall s :: stdev(s) >= 0.0
      modifies this
      ensures Valid()
      ensures State() == Collected(old(State()), p, stdev, now)
    {
      metricsData := metricsData + [p];
      DetectAnomalies(p);
      var due := ShouldUpdateBaselines(now);
      if due {
        UpdateBaselines(stdev, now);
      }
    }

    /** `get_anomalies` */
    function GetAnomalies(hours: int, now: int): (r: seq<Anomaly>)
      reads this
      ensures forall a :: a in r <==> a in anomalies && a.timestamp >= now - hours * HourSeconds
    {
      FilterMembers(anomalies, AnomalySince(now - hours * HourSeconds));
      Filter(anomalies, AnomalySince(now - hours * HourSeconds))
    }
  }
}
