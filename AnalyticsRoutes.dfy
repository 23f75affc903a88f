/**
 * The analytics HTTP routes over the metrics collector: the historical
 * view with its metric list and hourly aggregation, the summary with its
 * performance score, the capacity forecast, and the ordered insights.
 */
module AnalyticsRoutes {
  import opened Common
  import opened Collector
  import opened Stats
  import Sorting

  // ---------------------------------------------------------------------
  // The `metrics` query parameter
  // ---------------------------------------------------------------------

  /** Each piece stripped. */
  function Stripped(parts: seq<string>): (r: seq<string>)
    ensures |r| == |parts| && forall j :: 0 <= j < |parts| ==> r[j] == Strip(parts[j])
  {
    seq(|parts|, j requires 0 <= j < |parts| => Strip(parts[j]))
  }

  function NonEmpty(s: string): bool
  {
    s != []
  }

  /** The characters of `s.strip()` are characters of `s`, and it neither
      starts nor ends with whitespace. */
  lemma StripFacts(s: string)
    ensures forall c :: c in Strip(s) ==> c in s
    ensures Strip(s) != [] ==> !IsSpace(Strip(s)[0]) && !IsSpace(Strip(s)[|Strip(s)| - 1])
  {
    var l := StripLeft(s);
    var r := StripRight(l);
    StripLeftSuffix(s);
    StripRightPrefix(l);
    assert forall c :: c in r ==> c in l;
    assert forall c :: c in l ==> c in s;
    if r != [] {
      assert r[0] == l[0];
    }
  }

  /** The metric list of `GET /historical`: no list when the parameter is
      absent or empty; otherwise the comma-separated names, stripped, with
      blank ones dropped. */
  function MetricsParam(metrics: Option<string>): (r: Option<seq<string>>)
    ensures r.None? <==> metrics.None? || metrics.value == []
  {
    if metrics.None? || metrics.value == [] then None
    else Some(Filter(Stripped(Split(metrics.value, ',')), NonEmpty))
  }

  /** Every listed name is non-empty, free of commas and of surrounding
      whitespace, and every non-blank comma-separated piece is listed. */
  lemma MetricsParamFacts(q: string)
    requires q != []
    ensures var names := MetricsParam(Some(q)).value; var pieces := Split(q, ',');
      (forall i :: 0 <= i < |names| ==>
         names[i] != [] && ',' !in names[i] && !IsSpace(names[i][0]) && !IsSpace(names[i][|names[i]| - 1])) &&
      (forall j :: 0 <= j < |pieces| && Strip(pieces[j]) != [] ==> Strip(pieces[j]) in names) &&
      Join(pieces, ',') == q
  {
    var pieces := Split(q, ',');
    var names := Filter(Stripped(pieces), NonEmpty);
    FilterMembers(Stripped(pieces), NonEmpty);
    forall i | 0 <= i < |names|
      ensures names[i] != [] && ',' !in names[i] && !IsSpace(names[i][0]) && !IsSpace(names[i][|names[i]| - 1])
    {
      assert names[i] in names;
      var j :| 0 <= j < |pieces| && names[i] == Stripped(pieces)[j];
      StripFacts(pieces[j]);
    }
    forall j | 0 <= j < |pieces| && Strip(pieces[j]) != []
      ensures Strip(pieces[j]) in names
    {
      assert Stripped(pieces)[j] in Stripped(pieces);
    }
    JoinSplit(q, ',');
  }

  // ---------------------------------------------------------------------
  // Field values of dictionary rows
  // ---------------------------------------------------------------------

  /** `[p[f] for p in rows if f in p and p[f] is not None]` */
  function FieldValues(rows: seq<Row>, f: string): (vs: seq<real>)
    ensures |vs| <= |rows|
    ensures forall v :: v in vs ==> exists i :: 0 <= i < |rows| && f in rows[i].fields && rows[i].fields[f] == v
  {
    if rows == [] then []
    else
      var last := rows[|rows| - 1];
      FieldValues(rows[..|rows| - 1], f) + (if f in last.fields then [last.fields[f]] else [])
  }

  /** No values exactly when no row has the field. */
  lemma {:induction false} FieldValuesEmpty(rows: seq<Row>, f: string)
    ensures FieldValues(rows, f) == [] <==> forall i :: 0 <= i < |rows| ==> f !in rows[i].fields
  {
    if rows != [] {
      var init := rows[..|rows| - 1];
      FieldValuesEmpty(init, f);
      assert forall i :: 0 <= i < |init| ==> init[i] == rows[i];
    }
  }

  /** When every row has the field, there is one value per row and the last
      value is the last row's. */
  lemma {:induction false} FieldValuesFull(rows: seq<Row>, f: string)
    requires forall i :: 0 <= i < |rows| ==> f in rows[i].fields
    ensures |FieldValues(rows, f)| == |rows|
    ensures rows != [] ==> FieldValues(rows, f)[|rows| - 1] == rows[|rows| - 1].fields[f]
  {
    if rows != [] {
      var init := rows[..|rows| - 1];
      assert forall i :: 0 <= i < |init| ==> init[i] == rows[i];
      FieldValuesFull(init, f);
    }
  }

  /** The value-collecting loop the routes share. */
  method CollectValues(rows: seq<Row>, f: string) returns (values: seq<real>)
    ensures values == FieldValues(rows, f)
  {
    values := [];
    for i := 0 to |rows|
      invariant values == FieldValues(rows[..i], f)
    {
      assert rows[..i + 1][..i] == rows[..i];
      if f in rows[i].fields {
        values := values + [rows[i].fields[f]];
      }
    }
    assert rows[..|rows|] == rows;
  }

  // ---------------------------------------------------------------------
  // Hourly aggregation
  // ---------------------------------------------------------------------

  /** The fields `_aggregate_by_hour` averages (the network byte counters
      are not among them). */
  const NumericFields: set<string> := {
    "cpu_percent", "memory_percent", "disk_percent",
    "load_avg_1min", "load_avg_5min", "load_avg_15min",
    "process_count", "running_processes", "zombie_processes"}

  /** The start of the hour of `t` (minutes and seconds set to zero). */
  function HourOf(t: int): (h: int)
    ensures h <= t < h + HourSeconds && h % HourSeconds == 0
  {
    (t / HourSeconds) * HourSeconds
  }

  function InHour(h: int): Row -> bool
  {
    (r: Row) => HourOf(r.timestamp) == h
  }

  /** The hours of the rows, each once, in order of first appearance (the
      insertion order of the grouping dictionary). */
  function DistinctHours(rows: seq<Row>): (hs: seq<int>)
    ensures Distinct(hs)
    ensures forall h :: h in hs <==> exists i :: 0 <= i < |rows| && HourOf(rows[i].timestamp) == h
  {
    if rows == [] then []
    else
      var init := rows[..|rows| - 1];
      var d := DistinctHours(init);
      var h := HourOf(rows[|rows| - 1].timestamp);
      assert forall i :: 0 <= i < |init| ==> init[i] == rows[i];
      if h in d then d else d + [h]
  }

  /** One aggregated point: the hour and the mean of each numeric field
      over the hour's rows that have it. */
  function AveragedRow(h: int, group: seq<Row>): Row
  {
    Row(h, map f | f in NumericFields && FieldValues(group, f) != [] :: Mean(FieldValues(group, f)))
  }

  function HourKey(h: int): Sorting.SortKey
  {
    Sorting.Num(h as real)
  }

  /** `_aggregate_by_hour`: one point per hour, in ascending hour order. */
  function AggregatedByHour(rows: seq<Row>): seq<Row>
  {
    var hours := Sorting.SortBy(DistinctHours(rows), HourKey, false);
    seq(|hours|, k requires 0 <= k < |hours| => AveragedRow(hours[k], Filter(rows, InHour(hours[k]))))
  }

  lemma {:induction false} DistinctCounts<T>(s: seq<T>, x: T)
    requires Distinct(s)
    ensures multiset(s)[x] <= 1
  {
    if s != [] {
      assert s == [s[0]] + s[1..];
      assert Distinct(s[1..]);
      DistinctCounts(s[1..], x);
      if x == s[0] {
        assert x !in s[1..];
      }
    }
  }

  /** A permutation of a list without duplicates has none either. */
  lemma DistinctPermutation<T>(a: seq<T>, b: seq<T>)
    requires multiset(a) == multiset(b) && Distinct(a)
    ensures Distinct(b)
  {
    forall i, j | 0 <= i < j < |b|
      ensures b[i] != b[j]
    {
      if b[i] == b[j] {
        var x := b[i];
        assert b == b[..j] + b[j..];
        assert x in b[..j] && x in b[j..];
        assert multiset(b)[x] == multiset(b[..j])[x] + multiset(b[j..])[x];
        DistinctCounts(a, x);
        assert false;
      }
    }
  }

  /** The sorted hours of the rows. */
  function SortedHours(rows: seq<Row>): seq<int>
  {
    Sorting.SortBy(DistinctHours(rows), HourKey, false)
  }

  function Timestamps(rows: seq<Row>): (ts: seq<int>)
    ensures |ts| == |rows| && forall k :: 0 <= k < |rows| ==> ts[k] == rows[k].timestamp
  {
    seq(|rows|, k requires 0 <= k < |rows| => rows[k].timestamp)
  }

  lemma AggregatedAt(rows: seq<Row>)
    ensures Timestamps(AggregatedByHour(rows)) == SortedHours(rows)
  {
  }

  /** The sorted hours are strictly increasing and are exactly the hours of
      the rows. */
  lemma SortedHoursFacts(rows: seq<Row>)
    ensures var hours := SortedHours(rows);
      |hours| <= |rows| &&
      (forall j, k :: 0 <= j < k < |hours| ==> hours[j] < hours[k]) &&
      (forall h :: h in hours <==> exists i :: 0 <= i < |rows| && HourOf(rows[i].timestamp) == h)
  {
    DistinctHoursSize(rows);
    SortedHoursIncreasing(rows);
    Sorting.SortedMembers(DistinctHours(rows), HourKey, false);
  }

  lemma SortedHoursIncreasing(rows: seq<Row>)
    ensures var hours := SortedHours(rows);
      forall j, k :: 0 <= j < k < |hours| ==> hours[j] < hours[k]
  {
    var hours := SortedHours(rows);
    DistinctPermutation(DistinctHours(rows), hours);
    forall j, k | 0 <= j < k < |hours|
      ensures hours[j] < hours[k]
    {
      assert !Sorting.Before(HourKey, false, hours[k], hours[j]);
    }
  }

  /** There is at most one point per input row, the points' hours are
      strictly increasing, and they are exactly the hours of the input
      rows. */
  lemma AggregatedHours(rows: seq<Row>)
    ensures var out := AggregatedByHour(rows); var ts := Timestamps(out);
      |out| <= |rows| &&
      (forall j, k :: 0 <= j < k < |ts| ==> ts[j] < ts[k]) &&
      (forall h :: h in ts <==> exists i :: 0 <= i < |rows| && HourOf(rows[i].timestamp) == h)
  {
    AggregatedAt(rows);
    SortedHoursFacts(rows);
  }

  /** For every point, a field is present exactly when some row of that hour has
      it (and it is a numeric field), and then holds the mean of those rows'
      values. */
  lemma AggregatedFields(rows: seq<Row>, f: string)
    ensures var out := AggregatedByHour(rows);
      forall k :: 0 <= k < |out| ==>
        var p := out[k]; var group := Filter(rows, InHour(p.timestamp));
        (f in p.fields <==> f in NumericFields && exists i :: 0 <= i < |group| && f in group[i].fields) &&
        (f in p.fields ==> p.fields[f] == Mean(FieldValues(group, f))) &&
        (forall r :: r in group ==> r in rows && HourOf(r.timestamp) == p.timestamp)
  {
    var out := AggregatedByHour(rows);
    forall k | 0 <= k < |out|
      ensures var p := out[k]; var group := Filter(rows, InHour(p.timestamp));
        (f in p.fields <==> f in NumericFields && exists i :: 0 <= i < |group| && f in group[i].fields) &&
        (f in p.fields ==> p.fields[f] == Mean(FieldValues(group, f))) &&
        (forall r :: r in group ==> r in rows && HourOf(r.timestamp) == p.timestamp)
    {
      var p := out[k];
      FieldValuesEmpty(Filter(rows, InHour(p.timestamp)), f);
      FilterMembers(rows, InHour(p.timestamp));
    }
  }

  lemma {:induction false} DistinctHoursSize(rows: seq<Row>)
    ensures |DistinctHours(rows)| <= |rows|
  {
    if rows != [] {
      DistinctHoursSize(rows[..|rows| - 1]);
    }
  }

  /** The grouping dictionary after `prefix`: its keys in insertion order
      are `order`, and each holds the rows of its hour. */
  ghost predicate Grouped(prefix: seq<Row>, groups: map<int, seq<Row>>, order: seq<int>)
  {
    order == DistinctHours(prefix) &&
    (forall h :: h in groups <==> h in order) &&
    (forall h :: h in groups ==> groups[h] == Filter(prefix, InHour(h)))
  }

  /** Appending one row to its hour's group (a new group when the hour is
      new) keeps the grouping exact. */
  lemma GroupedStep(prefix: seq<Row>, x: Row, groups: map<int, seq<Row>>, order: seq<int>)
    requires Grouped(prefix, groups, order)
    ensures var h := HourOf(x.timestamp);
      if h in groups then Grouped(prefix + [x], groups[h := groups[h] + [x]], order)
      else Grouped(prefix + [x], groups[h := [x]], order + [h])
  {
    var h := HourOf(x.timestamp);
    var s := prefix + [x];
    assert s[..|s| - 1] == prefix;
    forall g
      ensures Filter(s, InHour(g)) == Filter(prefix, InHour(g)) + (if g == h then [x] else [])
    {
      FilterSnoc(prefix, x, InHour(g));
    }
    if h !in groups {
      FilterNone(prefix, InHour(h));
    }
  }

  /** `_aggregate_by_hour`: rows are grouped by hour in a dictionary, then
      the groups are averaged in ascending hour order. */
  method AggregateByHour(rows: seq<Row>) returns (out: seq<Row>)
    ensures out == AggregatedByHour(rows)
  {
    if rows == [] {
      return [];
    }
    var groups: map<int, seq<Row>> := map[];
    var order: seq<int> := [];
    for i := 0 to |rows|
      invariant Grouped(rows[..i], groups, order)
    {
      var h := HourOf(rows[i].timestamp);
      GroupedStep(rows[..i], rows[i], groups, order);
      assert rows[..i + 1] == rows[..i] + [rows[i]];
      if h in groups {
        groups := groups[h := groups[h] + [rows[i]]];
      } else {
        groups := groups[h := [rows[i]]];
        order := order + [h];
      }
    }
    assert rows[..|rows|] == rows;
    out := AverageGroups(rows, groups, order);
  }

  /** The second half of `_aggregate_by_hour`: each group, in ascending
      hour order, becomes one averaged point. */
  method AverageGroups(rows: seq<Row>, groups: map<int, seq<Row>>, order: seq<int>) returns (out: seq<Row>)
    requires Grouped(rows, groups, order)
    ensures out == AggregatedByHour(rows)
  {
    var hours := Sorting.SortBy(order, HourKey, false);
    out := [];
    for k := 0 to |hours|
      invariant |out| == k
      invariant forall j :: 0 <= j < k ==> out[j] == AveragedRow(hours[j], Filter(rows, InHour(hours[j])))
    {
      assert hours[k] in multiset(order);
      assert hours[k] in order;
      out := out + [AveragedRow(hours[k], groups[hours[k]])];
    }
  }

  // ---------------------------------------------------------------------
  // Summary and performance score
  // ---------------------------------------------------------------------

  /** One entry of `metrics_overview`. */
  datatype OverviewEntry = OverviewEntry(average: real, minimum: real, maximum: real, current: real, stdDev: real)

  /** The metrics the summary describes. */
  const OverviewMetrics: set<string> := {"cpu_percent", "memory_percent", "disk_percent", "load_avg_1min"}

  function EntryOf(values: seq<real>, stdev: seq<real> -> real): OverviewEntry
    requires |values| > 0
  {
    OverviewEntry(Mean(values), SeqMin(values), SeqMax(values), values[|values| - 1],
                  if |values| > 1 then stdev(values) else 0.0)
  }

  /** `metrics_overview`: an entry for each described metric some row has. */
  function MetricsOverview(rows: seq<Row>, stdev: seq<real> -> real): map<string, OverviewEntry>
  {
    map name | name in OverviewMetrics && FieldValues(rows, name) != [] :: EntryOf(FieldValues(rows, name), stdev)
  }

  /** Rows that carry every metric key (the summary reads unfiltered rows)
      give an entry for every described metric, whose current value is the
      last row's and whose average lies between its minimum and maximum. */
  lemma MetricsOverviewFacts(rows: seq<Row>, stdev: seq<real> -> real)
    requires forall i :: 0 <= i < |rows| ==> rows[i].fields.Keys == FieldNames
    ensures var o := MetricsOverview(rows, stdev);
      (rows == [] <==> o == map[]) &&
      (rows != [] ==> o.Keys == OverviewMetrics) &&
      (forall name :: name in o ==>
         o[name].current == rows[|rows| - 1].fields[name] &&
         o[name].minimum <= o[name].average <= o[name].maximum)
  {
    var o := MetricsOverview(rows, stdev);
    if rows == [] {
      assert FieldValues(rows, "cpu_percent") == [];
    } else {
      forall name | name in OverviewMetrics
        ensures |FieldValues(rows, name)| == |rows|
      {
        FieldValuesFull(rows, name);
      }
      assert "cpu_percent" in o;
    }
    forall name | name in o
      ensures o[name].current == rows[|rows| - 1].fields[name] && o[name].minimum <= o[name].average <= o[name].maximum
    {
      FieldValuesFull(rows, name);
      MeanBounds(FieldValues(rows, name));
    }
  }

  /** The threshold above which a current value costs points, and how many
      points each unit above it costs. */
  const CpuLimit: real := 80.0
  const MemoryLimit: real := 85.0
  const DiskLimit: real := 90.0
  const CpuWeight: real := 0.5
  const MemoryWeight: real := 0.7
  const DiskWeight: real := 1.0
  const HighAnomalyCost: real := 10.0
  const MediumAnomalyCost: real := 5.0

  /** The points one metric's current value costs. */
  function Penalty(overview: map<string, OverviewEntry>, name: string, limit: real, weight: real): (p: real)
    requires weight >= 0.0
    ensures p >= 0.0
    ensures p > 0.0 ==> name in overview && overview[name].current > limit
  {
    if name in overview && overview[name].current > limit then (overview[name].current - limit) * weight else 0.0
  }

  function HasSeverity(s: Severity): Anomaly -> bool
  {
    (a: Anomaly) => a.severity == s
  }

  function Clamp(x: real): (r: real)
    ensures 0.0 <= r <= 100.0
    ensures 0.0 <= x <= 100.0 ==> r == x
  {
    MaxR(0.0, MinR(100.0, x))
  }

  /** The unclamped score: 100 less every penalty. */
  function RawScore(overview: map<string, OverviewEntry>, anomalies: seq<Anomaly>): real
  {
    100.0
    - Penalty(overview, "cpu_percent", CpuLimit, CpuWeight)
    - Penalty(overview, "memory_percent", MemoryLimit, MemoryWeight)
    - Penalty(overview, "disk_percent", DiskLimit, DiskWeight)
    - HighAnomalyCost * (Count(anomalies, HasSeverity(High)) as real)
    - MediumAnomalyCost * (Count(anomalies, HasSeverity(Medium)) as real)
  }

  /** `_calculate_performance_score`: 0 without an overview, otherwise 100
      less the penalties, clamped to [0, 100]. */
  function PerformanceScoreOf(overview: map<string, OverviewEntry>, anomalies: seq<Anomaly>): (score: real)
    ensures 0.0 <= score <= 100.0
    ensures overview == map[] ==> score == 0.0
    ensures overview != map[] && 0.0 <= RawScore(overview, anomalies) <= 100.0 ==> score == RawScore(overview, anomalies)
    ensures overview != map[] && RawScore(overview, anomalies) < 0.0 ==> score == 0.0
  {
    if overview == map[] then 0.0 else Clamp(RawScore(overview, anomalies))
  }

  /** Nothing over its threshold and no high or medium anomaly: full marks. */
  lemma HealthyScore(overview: map<string, OverviewEntry>, anomalies: seq<Anomaly>)
    requires overview != map[]
    requires "cpu_percent" in overview ==> overview["cpu_percent"].current <= CpuLimit
    requires "memory_percent" in overview ==> overview["memory_percent"].current <= MemoryLimit
    requires "disk_percent" in overview ==> overview["disk_percent"].current <= DiskLimit
    requires forall i :: 0 <= i < |anomalies| ==> anomalies[i].severity == Low
    ensures PerformanceScoreOf(overview, anomalies) == 100.0
  {
    CountNone(anomalies, HasSeverity(High));
    CountNone(anomalies, HasSeverity(Medium));
  }

  lemma {:induction false} CountNone<T>(s: seq<T>, p: T -> bool)
    requires forall i :: 0 <= i < |s| ==> !p(s[i])
    ensures Count(s, p) == 0
  {
    if s != [] {
      assert forall i :: 0 <= i < |s[1..]| ==> s[1..][i] == s[i + 1];
      CountNone(s[1..], p);
    }
  }

  lemma {:induction false} CountSnoc<T>(s: seq<T>, x: T, p: T -> bool)
    ensures Count(s + [x], p) == Count(s, p) + (if p(x) then 1 else 0)
  {
    if s != [] {
      assert (s + [x])[1..] == s[1..] + [x];
      CountSnoc(s[1..], x, p);
    }
  }

  /** One more anomaly never raises the score. */
  lemma ScoreMonotone(overview: map<string, OverviewEntry>, anomalies: seq<Anomaly>, a: Anomaly)
    ensures PerformanceScoreOf(overview, anomalies + [a]) <= PerformanceScoreOf(overview, anomalies)
  {
    CountSnoc(anomalies, a, HasSeverity(High));
    CountSnoc(anomalies, a, HasSeverity(Medium));
  }

  /** `_calculate_performance_score`, deducting step by step. */
  method CalculatePerformanceScore(overview: map<string, OverviewEntry>, anomalies: seq<Anomaly>) returns (score: real)
    ensures score == PerformanceScoreOf(overview, anomalies)
    ensures 0.0 <= score <= 100.0
  {
    if overview == map[] {
      return 0.0;
    }
    score := 100.0;
    if "cpu_percent" in overview {
      var cpu := overview["cpu_percent"].current;
      if cpu > CpuLimit {
        score := score - (cpu - CpuLimit) * CpuWeight;
      }
    }
    if "memory_percent" in overview {
      var mem := overview["memory_percent"].current;
      if mem > MemoryLimit {
        score := score - (mem - MemoryLimit) * MemoryWeight;
      }
    }
    if "disk_percent" in overview {
      var disk := overview["disk_percent"].current;
      if disk > DiskLimit {
        score := score - (disk - DiskLimit) * DiskWeight;
      }
    }
    var high := Count(anomalies, HasSeverity(High));
    var medium := Count(anomalies, HasSeverity(Medium));
    score := score - (high as real) * HighAnomalyCost;
    score := score - (medium as real) * MediumAnomalyCost;
    score := MaxR(0.0, MinR(100.0, score));
  }

  /** The summary of `GET /summary`. */
  datatype Summary = Summary(
    hours: int,
    totalDataPoints: nat,
    overview: map<string, OverviewEntry>,
    trends: seq<Trend>,
    anomaliesDetected: nat,
    performanceScore: real)

  function SummaryOf(rows: seq<Row>, trends: seq<Trend>, anomalies: seq<Anomaly>, hours: int,
                     stdev: seq<real> -> real): Summary
  {
    var overview := MetricsOverview(rows, stdev);
    Summary(hours, |rows|, overview, trends, |anomalies|, PerformanceScoreOf(overview, anomalies))
  }

  // ---------------------------------------------------------------------
  // Capacity forecast
  // ---------------------------------------------------------------------

  datatype Action = Urgent | PlanExpansion | Watch | Normal

  function ActionValue(a: Action): string
  {
    match a
    case Urgent => "緊急：建議立即擴容或優化"
    case PlanExpansion => "警告：建議規劃擴容"
    case Watch => "注意：監控使用趨勢"
    case Normal => "正常：繼續監控"
  }

  /** One `CapacityForecast`; the exhaustion date is kept as the number of
      days from now at which it falls. */
  datatype Forecast = Forecast(
    metric: string,
    current: real,
    predicted7d: real,
    predicted30d: real,
    exhaustionDays: Option<real>,
    action: Action,
    confidence: real)

  const MinForecastValues: int := 7
  const CapacityLimit: real := 95.0
  const ForecastHorizonDays: real := 365.0

  /** The recommendation tiers, checked in order. */
  function ActionFor(p7: real, p30: real): (a: Action)
    ensures a == Urgent <==> p30 > 90.0
    ensures a == PlanExpansion <==> 80.0 < p30 <= 90.0
    ensures a == Watch <==> p30 <= 80.0 && p7 > 85.0
    ensures a == Normal <==> p30 <= 80.0 && p7 <= 85.0
  {
    if p30 > 90.0 then Urgent
    else if p30 > 80.0 then PlanExpansion
    else if p7 > 85.0 then Watch
    else Normal
  }

  /** The daily change: the last day's mean against the mean of the day a
      week earlier (of the first day when there is less than a week). */
  function DailyChangeRate(values: seq<real>): real
    requires |values| >= MinForecastValues
  {
    var n := |values|;
    var weekAgo := if n >= 168 then Mean(values[n - 168..n - 144]) else Mean(Take(values, 24));
    var recent := Mean(LastN(values, 24));
    (recent - weekAgo) / 7.0
  }

  /** The day of exhaustion: when the trend line meets 95 within a year. */
  function ExhaustionDays(current: real, rate: real): Option<real>
  {
    if rate > 0.0 then
      var days := (CapacityLimit - current) / rate;
      if days > 0.0 && days < ForecastHorizonDays then Some(days) else None
    else None
  }

  /** `_generate_capacity_forecast` over one metric's values. Fewer than
      seven values give no forecast. Otherwise both predictions follow the
      same daily rate from the last value, the action is the tier of the
      predictions, and the confidence grows with the number of values up to
      0.95. */
  function ForecastOf(metric: string, values: seq<real>): (r: Option<Forecast>)
    ensures r.None? <==> |values| < MinForecastValues
    ensures r.Some? ==>
      var f := r.value; var rate := DailyChangeRate(values);
      f.metric == metric && f.current == values[|values| - 1] &&
      f.predicted7d == f.current + 7.0 * rate && f.predicted30d == f.current + 30.0 * rate &&
      f.exhaustionDays == ExhaustionDays(f.current, rate) &&
      f.action == ActionFor(f.predicted7d, f.predicted30d) &&
      0.0 < f.confidence <= 0.95 &&
      (|values| <= 684 ==> f.confidence == (|values| as real) / 720.0)
  {
    if |values| < MinForecastValues then None
    else
      var current := values[|values| - 1];
      var rate := DailyChangeRate(values);
      var p7 := current + rate * 7.0;
      var p30 := current + rate * 30.0;
      Some(Forecast(metric, current, p7, p30, ExhaustionDays(current, rate), ActionFor(p7, p30),
                    MinR(0.95, |values| as real / (24.0 * 30.0))))
  }

  /** An exhaustion date is set exactly when the daily rate is positive and
      the trend line reaches 95 after more than 0 and fewer than 365 days;
      the line is at 95 on that day, and a value already at 95 has none. */
  lemma ExhaustionFacts(current: real, rate: real)
    ensures var d := ExhaustionDays(current, rate);
      (d.Some? <==> rate > 0.0 && 0.0 < (CapacityLimit - current) / rate < ForecastHorizonDays) &&
      (d.Some? ==> 0.0 < d.value < ForecastHorizonDays && current + rate * d.value == CapacityLimit) &&
      (current >= CapacityLimit ==> d.None?)
  {
    if rate > 0.0 {
      ExhaustionLine(current, rate);
    }
  }

  lemma ExhaustionLine(current: real, rate: real)
    requires rate > 0.0
    ensures current + rate * ((CapacityLimit - current) / rate) == CapacityLimit
    ensures current >= CapacityLimit ==> (CapacityLimit - current) / rate <= 0.0
  {
  }

  /** Values within [lo, hi] change by at most (hi - lo) / 7 a day. */
  lemma DailyChangeRateBounds(values: seq<real>, lo: real, hi: real)
    requires |values| >= MinForecastValues
    requires forall x :: x in values ==> lo <= x <= hi
    ensures -(hi - lo) / 7.0 <= DailyChangeRate(values) <= (hi - lo) / 7.0
  {
    var n := |values|;
    var week := if n >= 168 then values[n - 168..n - 144] else Take(values, 24);
    var recent := LastN(values, 24);
    assert forall x :: x in week ==> x in values;
    assert forall x :: x in recent ==> x in values;
    MeanBetween(week, lo, hi);
    MeanBetween(recent, lo, hi);
  }

  /** The metric's forecast, after collecting its values from the rows. */
  method GenerateCapacityForecast(rows: seq<Row>, metric: string) returns (r: Option<Forecast>)
    ensures r == ForecastOf(metric, FieldValues(rows, metric))
  {
    var values := CollectValues(rows, metric);
    if |values| < MinForecastValues {
      return None;
    }
    r := ForecastOf(metric, values);
  }

  /** The metrics the capacity forecast covers. */
  const ForecastMetrics: seq<string> := ["cpu_percent", "memory_percent", "disk_percent"]

  /** The forecasts that exist, in metric order. */
  function Forecasts(rows: seq<Row>, ms: seq<string>): (r: seq<Forecast>)
    ensures |r| <= |ms|
  {
    if ms == [] then []
    else
      var f := ForecastOf(ms[0], FieldValues(rows, ms[0]));
      (if f.Some? then [f.value] else []) + Forecasts(rows, ms[1..])
  }

  datatype ForecastReport = ForecastReport(forecasts: seq<Forecast>, totalMetrics: nat, basedOnDays: int)

  const InsufficientData: string := "數據不足，無法進行容量預測"

  /** `GET /capacity-forecast` as written: the 400 raised for too little data
      is inside the `try`, whose `except Exception` turns every exception,
      this one included, into a 500 carrying its text. */
  function CapacityForecastAsWritten(rows: seq<Row>): (r: Result<ForecastReport>)
    ensures r.Err? <==> |rows| < 24
    ensures r.Err? ==> r.status == 500
  {
    if |rows| < 24 then Err(500, "獲取容量預測失敗: 400: " + InsufficientData)
    else
      var fs := Forecasts(rows, ForecastMetrics);
      Ok(ForecastReport(fs, |fs|, Min(30, |rows| / 24)))
  }

  /** A request with no data at all gets a 500 where a 400 is meant. */
  lemma InsufficientDataIs500()
    ensures CapacityForecastAsWritten([]) == Err(500, "獲取容量預測失敗: 400: " + InsufficientData)
    ensures CapacityForecastIntended([]) == Err(400, InsufficientData)
  {
  }

  /** `GET /capacity-forecast` as intended: too little data is a 400. */
  function CapacityForecastIntended(rows: seq<Row>): (r: Result<ForecastReport>)
    ensures r.Err? <==> |rows| < 24
    ensures r.Err? ==> r == Err(400, InsufficientData)
    ensures r.Ok? ==> r.value.totalMetrics == |r.value.forecasts| <= |ForecastMetrics| && 1 <= r.value.basedOnDays <= 30
  {
    if |rows| < 24 then Err(400, InsufficientData)
    else
      var fs := Forecasts(rows, ForecastMetrics);
      Ok(ForecastReport(fs, |fs|, Min(30, |rows| / 24)))
  }

  /** Both versions agree on every request with enough data. */
  lemma CapacityForecastVersionsAgree(rows: seq<Row>)
    requires |rows| >= 24
    ensures CapacityForecastAsWritten(rows) == CapacityForecastIntended(rows)
  {
  }

  /** With at least a day of unfiltered rows every forecast metric has as
      many values as rows, so all three forecasts are made. */
  lemma FullRowsForecastAll(rows: seq<Row>)
    requires |rows| >= 24
    requires forall i :: 0 <= i < |rows| ==> rows[i].fields.Keys == FieldNames
    ensures CapacityForecastIntended(rows).value.totalMetrics == 3
  {
    FieldValuesFull(rows, "cpu_percent");
    FieldValuesFull(rows, "memory_percent");
    FieldValuesFull(rows, "disk_percent");
    assert ForecastMetrics[1..] == ["memory_percent", "disk_percent"];
    assert ForecastMetrics[1..][1..] == ["disk_percent"];
    assert ForecastMetrics[1..][1..][1..] == [];
    assert |Forecasts(rows, ["disk_percent"])| == 1;
    assert |Forecasts(rows, ["memory_percent", "disk_percent"])| == 2;
  }

  // ---------------------------------------------------------------------
  // Insights
  // ---------------------------------------------------------------------

  datatype InsightKind = PerformanceInsight | AnomalyInsight | TrendInsight

  datatype ImpactLevel = HighImpact | MediumImpact | LowImpact

  /** One insight; `metric` names the metric it is about (empty for the
      anomaly insight) and `count` the number of anomalies it reports. */
  datatype Insight = Insight(kind: InsightKind, metric: string, count: nat, impact: ImpactLevel, confidence: real)

  /** `d.get(name, 0)` */
  function FieldOr0(r: Row, name: string): real
  {
    if name in r.fields then r.fields[name] else 0.0
  }

  /** `_generate_performance_insights`: the latest row's cpu above 85 and
      memory above 90. */
  function PerformanceInsights(rows: seq<Row>): (r: seq<Insight>)
    ensures rows == [] ==> r == []
    ensures rows != [] ==>
      var latest := rows[|rows| - 1];
      (Insight(PerformanceInsight, "cpu_percent", 0, HighImpact, 0.9) in r <==> FieldOr0(latest, "cpu_percent") > 85.0) &&
      (Insight(PerformanceInsight, "memory_percent", 0, HighImpact, 0.95) in r <==> FieldOr0(latest, "memory_percent") > 90.0)
    ensures forall i :: 0 <= i < |r| ==> r[i].kind == PerformanceInsight && r[i].impact == HighImpact
  {
    if rows == [] then []
    else
      var latest := rows[|rows| - 1];
      (if FieldOr0(latest, "cpu_percent") > 85.0 then [Insight(PerformanceInsight, "cpu_percent", 0, HighImpact, 0.9)] else []) +
      (if FieldOr0(latest, "memory_percent") > 90.0 then [Insight(PerformanceInsight, "memory_percent", 0, HighImpact, 0.95)] else [])
  }

  /** `_generate_anomaly_insights`: one insight counting the high-severity
      anomalies, when there are any. */
  function AnomalyInsights(anomalies: seq<Anomaly>): (r: seq<Insight>)
    ensures var high := Count(anomalies, HasSeverity(High));
      (high == 0 ==> r == []) && (high > 0 ==> r == [Insight(AnomalyInsight, "", high, HighImpact, 0.9)])
  {
    var high := Count(anomalies, HasSeverity(High));
    if anomalies != [] && high > 0 then [Insight(AnomalyInsight, "", high, HighImpact, 0.9)] else []
  }

  /** The trends that give an insight. */
  predicate Notable(t: Trend)
  {
    DirectionValue(t.direction) == "上升" && AbsR(t.percentage) > 20.0 &&
    MetricName(t.metric) in ["cpu_percent", "memory_percent"]
  }

  function TrendInsightOf(t: Trend): Insight
  {
    Insight(TrendInsight, MetricName(t.metric), 0, MediumImpact, 0.8)
  }

  /** `_generate_trend_insights`, as a specification. */
  function TrendInsights(trends: seq<Trend>): seq<Insight>
  {
    if trends == [] then []
    else
      var t := trends[|trends| - 1];
      TrendInsights(trends[..|trends| - 1]) + (if Notable(t) then [TrendInsightOf(t)] else [])
  }

  /** An insight per notable trend, in order: exactly the rising cpu or
      memory trends of more than 20%, each a medium-impact insight with
      confidence 0.8. */
  lemma {:induction false} TrendInsightsFacts(trends: seq<Trend>)
    ensures var r := TrendInsights(trends);
      |r| <= |trends| &&
      (forall x :: x in r <==> exists i :: 0 <= i < |trends| && Notable(trends[i]) && x == TrendInsightOf(trends[i])) &&
      (forall x :: x in r ==>
         (x.kind == TrendInsight && x.impact == MediumImpact && x.confidence == 0.8 &&
          (x.metric == "cpu_percent" || x.metric == "memory_percent")))
  {
    if trends != [] {
      var init := trends[..|trends| - 1];
      TrendInsightsFacts(init);
      assert forall i :: 0 <= i < |init| ==> init[i] == trends[i];
    }
  }

  /** A notable trend, classified by its own change, rises by more than
      20%. */
  lemma NotableRises(t: Trend)
    requires Notable(t) && t.direction == Classify(t.percentage)
    ensures t.direction == Rising && t.percentage > 20.0
  {
  }

  method GenerateTrendInsights(trends: seq<Trend>) returns (insights: seq<Insight>)
    ensures insights == TrendInsights(trends)
  {
    insights := [];
    for k := 0 to |trends|
      invariant insights == TrendInsights(trends[..k])
    {
      assert trends[..k + 1][..k] == trends[..k];
      var t := trends[k];
      if DirectionValue(t.direction) == "上升" && AbsR(t.percentage) > 20.0 {
        if MetricName(t.metric) in ["cpu_percent", "memory_percent"] {
          insights := insights + [TrendInsightOf(t)];
        }
      }
    }
    assert trends[..|trends|] == trends;
  }

  function ImpactRank(level: ImpactLevel): int
  {
    match level
    case HighImpact => 3
    case MediumImpact => 2
    case LowImpact => 1
  }

  /** The sort key `(rank, confidence)` as one number: the confidences are
      in [0, 1], so ten per rank keeps the ranks apart. */
  function InsightKey(i: Insight): Sorting.SortKey
  {
    Sorting.Num(ImpactRank(i.impact) as real * 10.0 + i.confidence)
  }

  /** For confidences in [0, 1] the key orders insights by rank, then by
      confidence, as the tuple does. */
  lemma InsightKeyIsLexicographic(a: Insight, b: Insight)
    requires 0.0 <= a.confidence <= 1.0 && 0.0 <= b.confidence <= 1.0
    ensures Sorting.KeyLess(InsightKey(a), InsightKey(b)) <==>
      ImpactRank(a.impact) < ImpactRank(b.impact) ||
      (ImpactRank(a.impact) == ImpactRank(b.impact) && a.confidence < b.confidence)
  {
  }

  /** The generated insights in `get_system_insights` order, before sorting. */
  function GeneratedInsights(rows: seq<Row>, trends: seq<Trend>, anomalies: seq<Anomaly>): seq<Insight>
  {
    PerformanceInsights(rows) + AnomalyInsights(anomalies) + TrendInsights(trends)
  }

  /** `get_system_insights`: sorted by impact, then confidence, highest
      first. */
  function SystemInsights(rows: seq<Row>, trends: seq<Trend>, anomalies: seq<Anomaly>): seq<Insight>
  {
    Sorting.SortBy(GeneratedInsights(rows, trends, anomalies), InsightKey, true)
  }

  predicate ValidConfidence(i: Insight)
  {
    0.0 <= i.confidence <= 1.0
  }

  lemma GeneratedConfidences(rows: seq<Row>, trends: seq<Trend>, anomalies: seq<Anomaly>)
    ensures forall x :: x in GeneratedInsights(rows, trends, anomalies) ==> ValidConfidence(x)
  {
    TrendInsightsFacts(trends);
  }

  /** In a list sorted by the key, of confidences in [0, 1], no insight
      precedes one of higher impact, or of equal impact and higher
      confidence. */
  lemma SortedInsights(r: seq<Insight>)
    requires Sorting.SortedBy(r, InsightKey, true)
    requires forall x :: x in r ==> ValidConfidence(x)
    ensures forall j, k :: 0 <= j < k < |r| ==>
      ImpactRank(r[j].impact) >= ImpactRank(r[k].impact) &&
      (ImpactRank(r[j].impact) == ImpactRank(r[k].impact) ==> r[j].confidence >= r[k].confidence)
  {
    forall j, k | 0 <= j < k < |r|
      ensures ImpactRank(r[j].impact) >= ImpactRank(r[k].impact) &&
        (ImpactRank(r[j].impact) == ImpactRank(r[k].impact) ==> r[j].confidence >= r[k].confidence)
    {
      assert !Sorting.Before(InsightKey, true, r[k], r[j]);
      assert r[j] in r && r[k] in r;
      InsightKeyIsLexicographic(r[j], r[k]);
    }
  }

  /** The insights are the generated ones, reordered so that no insight
      precedes one of higher impact, or of equal impact and higher
      confidence; in particular every high-impact insight comes first. */
  lemma SystemInsightsOrder(rows: seq<Row>, trends: seq<Trend>, anomalies: seq<Anomaly>)
    ensures var r := SystemInsights(rows, trends, anomalies);
      multiset(r) == multiset(GeneratedInsights(rows, trends, anomalies)) &&
      forall j, k :: 0 <= j < k < |r| ==>
        ImpactRank(r[j].impact) >= ImpactRank(r[k].impact) &&
        (ImpactRank(r[j].impact) == ImpactRank(r[k].impact) ==> r[j].confidence >= r[k].confidence)
  {
    var g := GeneratedInsights(rows, trends, anomalies);
    var r := SystemInsights(rows, trends, anomalies);
    GeneratedConfidences(rows, trends, anomalies);
    assert forall x :: x in r ==> x in multiset(g);
    SortedInsights(r);
  }

  function IsHighImpact(i: Insight): bool
  {
    i.impact == HighImpact
  }

  datatype InsightsReport = InsightsReport(insights: seq<Insight>, totalInsights: nat, highImpactCount: nat)

  // ---------------------------------------------------------------------
  // Routes
  // ---------------------------------------------------------------------

  const ValidationFailed: string := "request validation failed"

  /** The `hours` query bounds of the historical, trend, anomaly and summary
      routes. */
  predicate HoursInRange(hours: int)
  {
    1 <= hours <= 168
  }

  datatype HistoricalData = HistoricalData(points: seq<Row>, totalPoints: nat, hours: int, aggregation: string)

  /** An absent metric list reads as "every metric". */
  function ListOrAll(names: Option<seq<string>>): seq<string>
  {
    if names.Some? then names.value else []
  }

  /** `GET /historical` over the collector's samples. */
  function HistoricalView(points: seq<MetricPoint>, hours: int, metrics: Option<string>, aggregation: string,
                          now: int): (r: Result<HistoricalData>)
    ensures r.Err? <==> !HoursInRange(hours)
    ensures r.Err? ==> r.status == 422
    ensures r.Ok? ==> r.value.totalPoints == |r.value.points| <= |RecentData(points, now, hours)|
  {
    if !HoursInRange(hours) then Err(422, ValidationFailed)
    else
      var rows := HistoricalRows(RecentData(points, now, hours), ListOrAll(MetricsParam(metrics)));
      var out := if aggregation == "hour" && |rows| > 0 then AggregatedByHour(rows) else rows;
      AggregatedHours(rows);
      Ok(HistoricalData(out, |out|, hours, aggregation))
  }

  method HistoricalRoute(c: MetricsCollector, hours: int, metrics: Option<string>, aggregation: string, now: int)
    returns (r: Result<HistoricalData>)
    ensures r == HistoricalView(c.metricsData, hours, metrics, aggregation, now)
  {
    if !HoursInRange(hours) {
      return Err(422, ValidationFailed);
    }
    var names := MetricsParam(metrics);
    var rows := c.GetHistoricalData(hours, ListOrAll(names), now);
    if aggregation == "hour" && |rows| > 0 {
      rows := AggregateByHour(rows);
    }
    r := Ok(HistoricalData(rows, |rows|, hours, aggregation));
  }

  /** `GET /summary` */
  method SummaryRoute(c: MetricsCollector, hours: int, now: int, stdev: seq<real> -> real) returns (r: Result<Summary>)
    ensures r.Err? <==> !HoursInRange(hours)
    ensures r.Ok? ==>
      var recent := RecentData(c.metricsData, now, hours);
      r.value == SummaryOf(HistoricalRows(recent, []), TrendAnalysis(recent, stdev), c.GetAnomalies(hours, now), hours, stdev)
  {
    if !HoursInRange(hours) {
      return Err(422, ValidationFailed);
    }
    var rows := c.GetHistoricalData(hours, [], now);
    var trends := c.GetTrendAnalysis(hours, now, stdev);
    var anomalies := c.GetAnomalies(hours, now);
    var overview := MetricsOverview(rows, stdev);
    var score := CalculatePerformanceScore(overview, anomalies);
    r := Ok(Summary(hours, |rows|, overview, trends, |anomalies|, score));
  }

  /** The summary counts the window's samples and anomalies; its score is 0
      exactly when there is no sample (or the penalties reach 100), and
      otherwise every described metric has an entry whose current value is
      the latest sample's. */
  lemma SummaryFacts(points: seq<MetricPoint>, trends: seq<Trend>, anomalies: seq<Anomaly>, hours: int, now: int,
                     stdev: seq<real> -> real)
    ensures var recent := RecentData(points, now, hours); var rows := HistoricalRows(recent, []);
      var s := SummaryOf(rows, trends, anomalies, hours, stdev);
      s.totalDataPoints == |recent| && s.anomaliesDetected == |anomalies| &&
      0.0 <= s.performanceScore <= 100.0 &&
      (recent == [] ==> s.overview == map[] && s.performanceScore == 0.0) &&
      (recent != [] ==>
         (s.overview.Keys == OverviewMetrics &&
          forall m: Metric :: MetricName(m) in s.overview ==> s.overview[MetricName(m)].current == Value(recent[|recent| - 1], m)))
  {
    var recent := RecentData(points, now, hours);
    var rows := HistoricalRows(recent, []);
    forall i | 0 <= i < |rows|
      ensures rows[i].fields.Keys == FieldNames
    {
      HistoricalRowFacts(recent, [], i);
    }
    MetricsOverviewFacts(rows, stdev);
    if recent != [] {
      HistoricalRowFacts(recent, [], |recent| - 1);
    }
  }

  /** The forecast loop of `GET /capacity-forecast`. */
  method ForecastEach(rows: seq<Row>, ms: seq<string>) returns (forecasts: seq<Forecast>)
    ensures forecasts == Forecasts(rows, ms)
  {
    forecasts := [];
    var todo := ms;
    while todo != []
      invariant forecasts + Forecasts(rows, todo) == Forecasts(rows, ms)
      decreases |todo|
    {
      var f := GenerateCapacityForecast(rows, todo[0]);
      assert Forecasts(rows, todo) == AsList(f) + Forecasts(rows, todo[1..]);
      assert (forecasts + AsList(f)) + Forecasts(rows, todo[1..]) == forecasts + Forecasts(rows, todo);
      forecasts := forecasts + AsList(f);
      todo := todo[1..];
    }
  }

  /** `GET /capacity-forecast`, reading the last 30 days of samples. */
  method CapacityForecastRoute(c: MetricsCollector, now: int) returns (r: Result<ForecastReport>)
    ensures r == CapacityForecastIntended(HistoricalRows(RecentData(c.metricsData, now, 24 * 30), []))
  {
    var rows := c.GetHistoricalData(24 * 30, [], now);
    if |rows| < 24 {
      return Err(400, InsufficientData);
    }
    var forecasts := ForecastEach(rows, ForecastMetrics);
    r := Ok(ForecastReport(forecasts, |forecasts|, Min(30, |rows| / 24)));
  }

  /** `GET /insights` over the last 24 hours. */
  method InsightsRoute(c: MetricsCollector, now: int, stdev: seq<real> -> real) returns (r: InsightsReport)
    ensures var recent := RecentData(c.metricsData, now, 24);
      r.insights == SystemInsights(HistoricalRows(recent, []), TrendAnalysis(recent, stdev), c.GetAnomalies(24, now))
    ensures r.totalInsights == |r.insights| && r.highImpactCount == Count(r.insights, IsHighImpact)
  {
    var rows := c.GetHistoricalData(24, [], now);
    var trends := c.GetTrendAnalysis(24, now, stdev);
    var anomalies := c.GetAnomalies(24, now);
    var trendInsights := GenerateTrendInsights(trends);
    var insights := PerformanceInsights(rows) + AnomalyInsights(anomalies) + trendInsights;
    insights := Sorting.SortBy(insights, InsightKey, true);
    r := InsightsReport(insights, |insights|, Count(insights, IsHighImpact));
  }

  datatype AnomalyReport = AnomalyReport(anomalies: seq<Anomaly>, total: nat, hours: int)

  function SeverityIs(name: string): Anomaly -> bool
  {
    (a: Anomaly) => SeverityValue(a.severity) == name
  }

  function NewestKey(a: Anomaly): Sorting.SortKey
  {
    Sorting.Num(a.timestamp as real)
  }

  /** A list sorted newest first has non-increasing timestamps. */
  lemma NewestFirst(s: seq<Anomaly>)
    requires Sorting.SortedBy(s, NewestKey, true)
    ensures forall j, k :: 0 <= j < k < |s| ==> s[j].timestamp >= s[k].timestamp
  {
    forall j, k | 0 <= j < k < |s|
      ensures s[j].timestamp >= s[k].timestamp
    {
      assert !Sorting.Before(NewestKey, true, s[k], s[j]);
    }
  }

  /** The anomalies of the window, of one severity when a (non-empty)
      severity is given. */
  function PickedAnomalies(anomalies: seq<Anomaly>, hours: int, severity: Option<string>, now: int): (r: seq<Anomaly>)
    ensures forall a :: a in r <==>
      a in anomalies && a.timestamp >= now - hours * HourSeconds &&
      (severity.Some? && severity.value != [] ==> SeverityValue(a.severity) == severity.value)
  {
    var window := Filter(anomalies, AnomalySince(now - hours * HourSeconds));
    FilterMembers(anomalies, AnomalySince(now - hours * HourSeconds));
    if severity.Some? && severity.value != [] then
      FilterMembers(window, SeverityIs(severity.value));
      Filter(window, SeverityIs(severity.value))
    else window
  }

  /** `GET /anomalies`: the picked anomalies, newest first. */
  function AnomalyView(anomalies: seq<Anomaly>, hours: int, severity: Option<string>, now: int): (r: Result<AnomalyReport>)
    ensures r.Err? <==> !HoursInRange(hours)
    ensures r.Ok? ==> r.value.total == |r.value.anomalies|
    ensures r.Ok? ==> multiset(r.value.anomalies) == multiset(PickedAnomalies(anomalies, hours, severity, now))
    ensures r.Ok? ==> forall j, k :: 0 <= j < k < |r.value.anomalies| ==>
      r.value.anomalies[j].timestamp >= r.value.anomalies[k].timestamp
  {
    if !HoursInRange(hours) then Err(422, ValidationFailed)
    else
      var sorted := Sorting.SortBy(PickedAnomalies(anomalies, hours, severity, now), NewestKey, true);
      NewestFirst(sorted);
      Ok(AnomalyReport(sorted, |sorted|, hours))
  }
}
