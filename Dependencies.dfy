/**
 * The resource dependency analyzer: correlations between the main
 * metrics, impact and bottleneck classification of the latest sample,
 * saturation prediction, and the system health index.
 *
 * A sample is a dictionary of metric values; a missing metric reads as 0.
 * NumPy's correlation coefficient and least-squares slope and the sample
 * standard deviation are parameters: `corr` answers None where NumPy
 * answers NaN.
 */
module Dependencies {
  import opened Common
  import opened Stats

  type Sample = map<string, real>

  /** `d.get(name, 0)` */
  function Get(d: Sample, name: string): real
  {
    if name in d then d[name] else 0.0
  }

  /** The value of one metric in every sample. */
  function Column(rows: seq<Sample>, name: string): (vs: seq<real>)
    ensures |vs| == |rows| && forall i :: 0 <= i < |rows| ==> vs[i] == Get(rows[i], name)
  {
    seq(|rows|, i requires 0 <= i < |rows| => Get(rows[i], name))
  }

  // ---------------------------------------------------------------------
  // Correlations and dependencies
  // ---------------------------------------------------------------------

  /** The metrics whose pairwise correlations are examined, in order. */
  const ResourceMetrics: seq<string> := ["cpu_percent", "memory_percent", "disk_percent", "load_avg_1min", "process_count"]

  const MinDependencyPoints: int := 10
  const StrongCorrelation: real := 0.6

  datatype Correlation = Correlation(first: string, second: string, coefficient: real)

  /** Index pairs ordered first by the first index, then by the second. */
  predicate PairLess(p: (nat, nat), q: (nat, nat))
  {
    p.0 < q.0 || (p.0 == q.0 && p.1 < q.1)
  }

  predicate PairsSorted(ps: seq<(nat, nat)>)
  {
    forall a, b :: 0 <= a < b < |ps| ==> PairLess(ps[a], ps[b])
  }

  /** The pairs (i, j), j from `j` up to `n - 1`: one pass of the inner loop. */
  function RowPairs(i: nat, j: nat, n: nat): (ps: seq<(nat, nat)>)
    decreases n - j
    ensures |ps| == if j < n then n - j else 0
    ensures forall k :: 0 <= k < |ps| ==> ps[k] == (i, j + k)
  {
    if j >= n then [] else [(i, j)] + RowPairs(i, j + 1, n)
  }

  /** The pairs (a, b) with `i <= a < b < n` in the order of the nested
      loops. */
  function IndexPairs(i: nat, n: nat): (ps: seq<(nat, nat)>)
    decreases n - i
  {
    if i >= n then [] else RowPairs(i, i + 1, n) + IndexPairs(i + 1, n)
  }

  /** The nested loops visit every pair (a, b) with `i <= a < b < n`
      exactly once, in increasing order. */
  lemma IndexPairsFacts(i: nat, n: nat)
    ensures forall p :: p in IndexPairs(i, n) <==> i <= p.0 < p.1 < n
    ensures PairsSorted(IndexPairs(i, n))
  {
    IndexPairsMembers(i, n);
    IndexPairsSorted(i, n);
  }

  lemma {:induction false} IndexPairsMembers(i: nat, n: nat)
    decreases n - i
    ensures forall p :: p in IndexPairs(i, n) <==> i <= p.0 < p.1 < n
  {
    if i < n {
      IndexPairsMembers(i + 1, n);
      var row := RowPairs(i, i + 1, n);
      var ps := IndexPairs(i, n);
      assert ps == row + IndexPairs(i + 1, n);
      forall p
        ensures p in ps <==> i <= p.0 < p.1 < n
      {
        if p.0 == i && i < p.1 < n {
          assert row[p.1 - i - 1] == p;
        }
        if p in row {
          var k :| 0 <= k < |row| && row[k] == p;
        }
      }
    }
  }

  lemma {:induction false} IndexPairsSorted(i: nat, n: nat)
    decreases n - i
    ensures PairsSorted(IndexPairs(i, n))
  {
    if i < n {
      IndexPairsSorted(i + 1, n);
      IndexPairsMembers(i + 1, n);
      var row := RowPairs(i, i + 1, n);
      var rest := IndexPairs(i + 1, n);
      var ps := IndexPairs(i, n);
      assert ps == row + rest;
      forall a, b | 0 <= a < b < |ps|
        ensures PairLess(ps[a], ps[b])
      {
        if b < |row| {
          assert ps[a] == row[a] && ps[b] == row[b];
        } else if a < |row| {
          assert ps[a] == row[a] && ps[b] == rest[b - |row|];
          assert rest[b - |row|] in rest;
        } else {
          assert ps[a] == rest[a - |row|] && ps[b] == rest[b - |row|];
        }
      }
    }
  }

  /** A pair yields a correlation when both columns exist, have the same
      length of at least two, and the coefficient is a number. */
  function Correlates(cols: seq<seq<real>>, corr: (seq<real>, seq<real>) -> Option<real>): ((nat, nat)) -> bool
  {
    (p: (nat, nat)) =>
      p.0 < |cols| && p.1 < |cols| && |cols[p.0]| == |cols[p.1]| && |cols[p.0]| > 1 &&
      corr(cols[p.0], cols[p.1]).Some?
  }

  function CorrelationAt(names: seq<string>, cols: seq<seq<real>>, corr: (seq<real>, seq<real>) -> Option<real>, p: (nat, nat)): Correlation
    requires |names| == |cols| && Correlates(cols, corr)(p)
  {
    Correlation(names[p.0], names[p.1], corr(cols[p.0], cols[p.1]).value)
  }

  /** The correlations of the kept index pairs, one entry per pair. */
  function Entries(names: seq<string>, cols: seq<seq<real>>, corr: (seq<real>, seq<real>) -> Option<real>, kept: seq<(nat, nat)>): (r: seq<Correlation>)
    requires |names| == |cols| && forall k :: 0 <= k < |kept| ==> Correlates(cols, corr)(kept[k])
    ensures |r| == |kept| && forall k :: 0 <= k < |kept| ==> r[k] == CorrelationAt(names, cols, corr, kept[k])
  {
    seq(|kept|, k requires 0 <= k < |kept| => CorrelationAt(names, cols, corr, kept[k]))
  }

  /** The correlations of row `i` from column `j` on: one pass of the
      inner loop. */
  function CorrelationRow(names: seq<string>, cols: seq<seq<real>>, corr: (seq<real>, seq<real>) -> Option<real>, i: nat, j: nat): seq<Correlation>
    requires |names| == |cols|
    decreases |names| - j
  {
    if j >= |names| then []
    else
      (if Correlates(cols, corr)((i, j)) then [CorrelationAt(names, cols, corr, (i, j))] else []) +
      CorrelationRow(names, cols, corr, i, j + 1)
  }

  /** The correlations of the rows from `i` on. */
  function CorrelationRows(names: seq<string>, cols: seq<seq<real>>, corr: (seq<real>, seq<real>) -> Option<real>, i: nat): seq<Correlation>
    requires |names| == |cols|
    decreases |names| - i
  {
    if i >= |names| then []
    else CorrelationRow(names, cols, corr, i, i + 1) + CorrelationRows(names, cols, corr, i + 1)
  }

  /** `_calculate_correlations`, as a specification: every pair i < j of
      metrics, in loop order, whose coefficient is defined. */
  function Correlations(names: seq<string>, cols: seq<seq<real>>, corr: (seq<real>, seq<real>) -> Option<real>): seq<Correlation>
    requires |names| == |cols|
  {
    CorrelationRows(names, cols, corr, 0)
  }

  lemma EntriesAppend(names: seq<string>, cols: seq<seq<real>>, corr: (seq<real>, seq<real>) -> Option<real>, a: seq<(nat, nat)>, b: seq<(nat, nat)>)
    requires |names| == |cols|
    requires forall k :: 0 <= k < |a| ==> Correlates(cols, corr)(a[k])
    requires forall k :: 0 <= k < |b| ==> Correlates(cols, corr)(b[k])
    ensures forall k :: 0 <= k < |a + b| ==> Correlates(cols, corr)((a + b)[k])
    ensures Entries(names, cols, corr, a + b) == Entries(names, cols, corr, a) + Entries(names, cols, corr, b)
  {
    forall k | 0 <= k < |a + b| ensures Correlates(cols, corr)((a + b)[k]) {
      if k < |a| { assert (a + b)[k] == a[k]; } else { assert (a + b)[k] == b[k - |a|]; }
    }
  }

  lemma {:induction false} RowIsFiltered(names: seq<string>, cols: seq<seq<real>>, corr: (seq<real>, seq<real>) -> Option<real>, i: nat, j: nat)
    requires |names| == |cols|
    decreases |names| - j
    ensures CorrelationRow(names, cols, corr, i, j) == Entries(names, cols, corr, Filter(RowPairs(i, j, |names|), Correlates(cols, corr)))
  {
    if j < |names| {
      RowIsFiltered(names, cols, corr, i, j + 1);
      var keep := Correlates(cols, corr);
      var ps := RowPairs(i, j, |names|);
      assert ps[1..] == RowPairs(i, j + 1, |names|);
      assert ps[0] == (i, j);
      var head: seq<(nat, nat)> := if keep((i, j)) then [(i, j)] else [];
      var tail := Filter(ps[1..], keep);
      assert Filter(ps, keep) == head + tail;
      EntriesAppend(names, cols, corr, head, tail);
      assert Entries(names, cols, corr, head) == if keep((i, j)) then [CorrelationAt(names, cols, corr, (i, j))] else [];
    }
  }

  /** The loop-shaped specification is the filtered list of index pairs. */
  lemma {:induction false} RowsAreFiltered(names: seq<string>, cols: seq<seq<real>>, corr: (seq<real>, seq<real>) -> Option<real>, i: nat)
    requires |names| == |cols|
    decreases |names| - i
    ensures CorrelationRows(names, cols, corr, i) == Entries(names, cols, corr, Filter(IndexPairs(i, |names|), Correlates(cols, corr)))
  {
    if i < |names| {
      var keep := Correlates(cols, corr);
      var n := |names|;
      RowsAreFiltered(names, cols, corr, i + 1);
      RowIsFiltered(names, cols, corr, i, i + 1);
      assert IndexPairs(i, n) == RowPairs(i, i + 1, n) + IndexPairs(i + 1, n);
      FilterAppend(RowPairs(i, i + 1, n), IndexPairs(i + 1, n), keep);
      EntriesAppend(names, cols, corr, Filter(RowPairs(i, i + 1, n), keep), Filter(IndexPairs(i + 1, n), keep));
    }
  }

  /** Filtering keeps the pairs in order. */
  lemma {:induction false} FilterKeepsPairsSorted(ps: seq<(nat, nat)>, keep: ((nat, nat)) -> bool)
    requires PairsSorted(ps)
    ensures PairsSorted(Filter(ps, keep))
  {
    if ps != [] {
      FilterKeepsPairsSorted(ps[1..], keep);
      var rest := Filter(ps[1..], keep);
      FilterMembers(ps[1..], keep);
      forall q | q in rest
        ensures PairLess(ps[0], q)
      {
        var b :| 0 <= b < |ps[1..]| && ps[1..][b] == q;
        assert ps[b + 1] == q;
      }
    }
  }

  /** Every entry is the defined correlation of two columns of equal length
      of at least two, the earlier metric first. */
  lemma CorrelationsFromPairs(names: seq<string>, cols: seq<seq<real>>, corr: (seq<real>, seq<real>) -> Option<real>, k: int)
    requires |names| == |cols| && 0 <= k < |Correlations(names, cols, corr)|
    ensures var c := Correlations(names, cols, corr)[k];
      exists a, b :: (0 <= a < b < |names| && c.first == names[a] && c.second == names[b] &&
        |cols[a]| == |cols[b]| > 1 && corr(cols[a], cols[b]) == Some(c.coefficient))
  {
    RowsAreFiltered(names, cols, corr, 0);
    var kept := Filter(IndexPairs(0, |names|), Correlates(cols, corr));
    FilterMembers(IndexPairs(0, |names|), Correlates(cols, corr));
    IndexPairsFacts(0, |names|);
    assert kept[k] in kept;
    var p := kept[k];
    assert p in IndexPairs(0, |names|);
    assert Correlations(names, cols, corr)[k] == CorrelationAt(names, cols, corr, p);
  }

  /** Each unordered pair of distinct metrics is correlated at most once. */
  lemma CorrelationsUnique(names: seq<string>, cols: seq<seq<real>>, corr: (seq<real>, seq<real>) -> Option<real>, k1: int, k2: int)
    requires |names| == |cols|
    requires forall a, b :: 0 <= a < |names| && 0 <= b < |names| && a != b ==> names[a] != names[b]
    requires 0 <= k1 < k2 < |Correlations(names, cols, corr)|
    ensures var c1 := Correlations(names, cols, corr)[k1]; var c2 := Correlations(names, cols, corr)[k2];
      (c1.first, c1.second) != (c2.first, c2.second) && (c1.first, c1.second) != (c2.second, c2.first)
  {
    RowsAreFiltered(names, cols, corr, 0);
    var ps := IndexPairs(0, |names|);
    var kept := Filter(ps, Correlates(cols, corr));
    FilterMembers(ps, Correlates(cols, corr));
    IndexPairsFacts(0, |names|);
    FilterKeepsPairsSorted(ps, Correlates(cols, corr));
    var p, q := kept[k1], kept[k2];
    assert p in kept && q in kept;
    assert p in ps && q in ps;
    assert PairLess(p, q);
    var cs := Correlations(names, cols, corr);
    assert cs[k1] == CorrelationAt(names, cols, corr, p);
    assert cs[k2] == CorrelationAt(names, cols, corr, q);
  }

  /** The nested loops of `_calculate_correlations`. */
  method CalculateCorrelations(names: seq<string>, cols: seq<seq<real>>, corr: (seq<real>, seq<real>) -> Option<real>)
    returns (out: seq<Correlation>)
    requires |names| == |cols|
    ensures out == Correlations(names, cols, corr)
  {
    out := [];
    for i := 0 to |names|
      invariant out + CorrelationRows(names, cols, corr, i) == Correlations(names, cols, corr)
    {
      var row := CorrelateRow(names, cols, corr, i);
      assert CorrelationRows(names, cols, corr, i) == row + CorrelationRows(names, cols, corr, i + 1);
      out := out + row;
    }
  }

  /** One round of the inner loop: the pair (i, j) gives an entry when both
      columns have the same length, more than one value, and a defined
      coefficient. */
  lemma CorrelationRowStep(names: seq<string>, cols: seq<seq<real>>, corr: (seq<real>, seq<real>) -> Option<real>, i: nat, j: nat)
    requires |names| == |cols| && i < j < |names|
    ensures CorrelationRow(names, cols, corr, i, j) ==
      PairEntry(names, cols, corr, i, j) + CorrelationRow(names, cols, corr, i, j + 1)
  {
  }

  /** The entry the pair (i, j) contributes, if any. */
  function PairEntry(names: seq<string>, cols: seq<seq<real>>, corr: (seq<real>, seq<real>) -> Option<real>, i: nat, j: nat): seq<Correlation>
    requires |names| == |cols| && i < j < |names|
  {
    if Correlates(cols, corr)((i, j)) then [CorrelationAt(names, cols, corr, (i, j))] else []
  }

  /** The body of the inner loop for one pair. */
  method CorrelatePair(names: seq<string>, cols: seq<seq<real>>, corr: (seq<real>, seq<real>) -> Option<real>, i: nat, j: nat)
    returns (entry: seq<Correlation>)
    requires |names| == |cols| && i < j < |names|
    ensures entry == PairEntry(names, cols, corr, i, j)
  {
    entry := [];
    if |cols[i]| == |cols[j]| && |cols[i]| > 1 {
      var c := corr(cols[i], cols[j]);
      if c.Some? {
        entry := [Correlation(names[i], names[j], c.value)];
      }
    }
  }

  /** The inner loop: metric `i` against every later metric. */
  method CorrelateRow(names: seq<string>, cols: seq<seq<real>>, corr: (seq<real>, seq<real>) -> Option<real>, i: nat)
    returns (row: seq<Correlation>)
    requires |names| == |cols| && i < |names|
    ensures row == CorrelationRow(names, cols, corr, i, i + 1)
  {
    row := [];
    for j: nat := i + 1 to |names|
      invariant row + CorrelationRow(names, cols, corr, i, j) == CorrelationRow(names, cols, corr, i, i + 1)
    {
      row := CorrelateNext(names, cols, corr, i, j, row);
    }
  }

  /** One round of the inner loop, appending the entry of (i, j) to the
      row so far. */
  method CorrelateNext(names: seq<string>, cols: seq<seq<real>>, corr: (seq<real>, seq<real>) -> Option<real>, i: nat, j: nat, row: seq<Correlation>)
    returns (row': seq<Correlation>)
    requires |names| == |cols| && i < j < |names|
    requires row + CorrelationRow(names, cols, corr, i, j) == CorrelationRow(names, cols, corr, i, i + 1)
    ensures row' + CorrelationRow(names, cols, corr, i, j + 1) == CorrelationRow(names, cols, corr, i, i + 1)
  {
    var entry := CorrelatePair(names, cols, corr, i, j);
    CorrelationRowStep(names, cols, corr, i, j);
    assert (row + entry) + CorrelationRow(names, cols, corr, i, j + 1) == row + CorrelationRow(names, cols, corr, i, j);
    row' := row + entry;
  }

  /** One `ResourceDependency` (its description is one of two fixed texts:
      `positive` chooses the positive-correlation one). */
  datatype Dependency = Dependency(resource: string, dependents: seq<string>, strength: real, coefficient: real, positive: bool)

  function DependencyOf(c: Correlation): Dependency
  {
    Dependency(c.first, [c.second], AbsR(c.coefficient), c.coefficient, c.coefficient > 0.0)
  }

  /** The dependency a correlation stronger than 0.6 in absolute value
      gives. */
  function StrongOf(c: Correlation): Option<Dependency>
  {
    if AbsR(c.coefficient) > StrongCorrelation then Some(DependencyOf(c)) else None
  }

  /** The dependencies of the strong correlations, in order. */
  function StrongDependencies(cs: seq<Correlation>): seq<Dependency>
  {
    FilterMap(cs, StrongOf)
  }

  /** Each dependency comes from a strong correlation and carries its
      strength and sign; every strong correlation gives one. */
  lemma StrongDependenciesFacts(cs: seq<Correlation>)
    ensures var ds := StrongDependencies(cs);
      |ds| <= |cs| &&
      (forall d :: d in ds ==> (d.strength > StrongCorrelation && d.strength == AbsR(d.coefficient) &&
        |d.dependents| == 1 && d.positive == (d.coefficient > 0.0))) &&
      (forall d :: d in ds <==> exists k :: 0 <= k < |cs| && AbsR(cs[k].coefficient) > StrongCorrelation && d == DependencyOf(cs[k]))
  {
    FilterMapMembers(cs, StrongOf);
    var ds := StrongDependencies(cs);
    forall d | d in ds
      ensures d.strength > StrongCorrelation && d.strength == AbsR(d.coefficient) &&
        |d.dependents| == 1 && d.positive == (d.coefficient > 0.0)
    {
      var k :| 0 <= k < |cs| && StrongOf(cs[k]) == Some(d);
    }
  }

  /** `resource_metrics`: one column per examined metric. */
  function Columns(rows: seq<Sample>): (cols: seq<seq<real>>)
    ensures |cols| == |ResourceMetrics|
    ensures forall k :: 0 <= k < |ResourceMetrics| ==> cols[k] == Column(rows, ResourceMetrics[k])
  {
    seq(|ResourceMetrics|, k requires 0 <= k < |ResourceMetrics| => Column(rows, ResourceMetrics[k]))
  }

  /** `analyze_resource_dependencies`, as a specification. */
  function ResourceDependencies(rows: seq<Sample>, corr: (seq<real>, seq<real>) -> Option<real>): seq<Dependency>
  {
    if |rows| < MinDependencyPoints then []
    else
      StrongDependencies(Correlations(ResourceMetrics, Columns(rows), corr))
  }

  /** `analyze_resource_dependencies`: fewer than ten samples give nothing;
      otherwise the correlations are computed and the strong ones kept. */
  method AnalyzeResourceDependencies(rows: seq<Sample>, corr: (seq<real>, seq<real>) -> Option<real>)
    returns (ds: seq<Dependency>)
    ensures ds == ResourceDependencies(rows, corr)
  {
    if |rows| < MinDependencyPoints {
      return [];
    }
    var cs := CalculateCorrelations(ResourceMetrics, Columns(rows), corr);
    ds := [];
    for k := 0 to |cs|
      invariant ds == StrongDependencies(cs[..k])
    {
      FilterMapPrefix(cs, k, StrongOf);
      var c := cs[k];
      if AbsR(c.coefficient) > StrongCorrelation {
        ds := ds + [DependencyOf(c)];
      }
    }
    assert cs[..|cs|] == cs;
  }

  /** With ten samples or more, a dependency between two metrics is
      reported exactly when their correlation is defined and stronger than
      0.6 in absolute value, with that strength; no pair of metrics is
      reported twice. */
  lemma ResourceDependenciesFacts(rows: seq<Sample>, corr: (seq<real>, seq<real>) -> Option<real>)
    ensures |rows| < MinDependencyPoints ==> ResourceDependencies(rows, corr) == []
    ensures var ds := ResourceDependencies(rows, corr);
      forall k1, k2 :: 0 <= k1 < k2 < |ds| ==>
        (ds[k1].resource, ds[k1].dependents) != (ds[k2].resource, ds[k2].dependents)
  {
    if |rows| >= MinDependencyPoints {
      var cs := Correlations(ResourceMetrics, Columns(rows), corr);
      assert ResourceDependencies(rows, corr) == StrongDependencies(cs);
      MetricsDistinct();
      forall k1, k2 | 0 <= k1 < k2 < |cs|
        ensures (cs[k1].first, cs[k1].second) != (cs[k2].first, cs[k2].second)
      {
        CorrelationsUnique(ResourceMetrics, Columns(rows), corr, k1, k2);
      }
      StrongKeepsDistinct(cs);
    }
  }

  lemma MetricsDistinct()
    ensures forall a, b :: 0 <= a < |ResourceMetrics| && 0 <= b < |ResourceMetrics| && a != b ==> ResourceMetrics[a] != ResourceMetrics[b]
  {
  }

  /** Keeping the strong correlations keeps them apart pair by pair. */
  lemma {:induction false} StrongKeepsDistinct(cs: seq<Correlation>)
    requires forall k1, k2 :: 0 <= k1 < k2 < |cs| ==> (cs[k1].first, cs[k1].second) != (cs[k2].first, cs[k2].second)
    ensures forall k1, k2 :: 0 <= k1 < k2 < |StrongDependencies(cs)| ==>
      (StrongDependencies(cs)[k1].resource, StrongDependencies(cs)[k1].dependents) !=
      (StrongDependencies(cs)[k2].resource, StrongDependencies(cs)[k2].dependents)
  {
    if cs != [] {
      var init := cs[..|cs| - 1];
      var c := cs[|cs| - 1];
      StrongKeepsDistinct(init);
      var head := StrongDependencies(init);
      StrongDependenciesFacts(init);
      forall d | d in head
        ensures (d.resource, d.dependents) != (c.first, [c.second])
      {
        var k :| 0 <= k < |init| && AbsR(init[k].coefficient) > StrongCorrelation && d == DependencyOf(init[k]);
        var x := init[k];
        assert cs[k] == x;
        assert (cs[k].first, cs[k].second) != (cs[|cs| - 1].first, cs[|cs| - 1].second);
        if d.dependents == [c.second] {
          assert d.dependents[0] == x.second;
        }
      }
      var ds := StrongDependencies(cs);
      assert cs == init + [c];
      FilterMapSnoc(init, c, StrongOf);
      assert ds == head + (if AbsR(c.coefficient) > StrongCorrelation then [DependencyOf(c)] else []);
      forall k1, k2 | 0 <= k1 < k2 < |ds|
        ensures (ds[k1].resource, ds[k1].dependents) != (ds[k2].resource, ds[k2].dependents)
      {
        if k2 < |head| {
          assert ds[k1] == head[k1] && ds[k2] == head[k2];
        } else {
          assert AbsR(c.coefficient) > StrongCorrelation && ds == head + [DependencyOf(c)];
          assert ds[k1] == head[k1] && ds[k2] == DependencyOf(c);
          assert head[k1] in head;
        }
      }
    }
  }

  // ---------------------------------------------------------------------
  // Impact of the current sample
  // ---------------------------------------------------------------------

  datatype Risk = Medium | High | Critical

  function RiskValue(r: Risk): string
  {
    match r
    case Medium => "medium"
    case High => "high"
    case Critical => "critical"
  }

  datatype Component = Cpu | Memory | Disk

  function ComponentMetric(c: Component): string
  {
    match c
    case Cpu => "cpu_percent"
    case Memory => "memory_percent"
    case Disk => "disk_percent"
  }

  /** Below `Floor` the component has no impact; above `HighCut` the risk
      is high and above `CriticalCut` critical. */
  function Floor(c: Component): real
  {
    match c
    case Cpu => 70.0
    case Memory => 75.0
    case Disk => 80.0
  }

  function HighCut(c: Component): real
  {
    match c
    case Cpu => 80.0
    case Memory => 85.0
    case Disk => 90.0
  }

  function CriticalCut(c: Component): real
  {
    match c
    case Cpu => 90.0
    case Memory => 95.0
    case Disk => 95.0
  }

  /** One `ResourceImpactAnalysis` (affected resources, cascade effects and
      suggestions are fixed lists per component). */
  datatype Impact = Impact(component: Component, score: real, risk: Risk)

  /** `_analyze_cpu_impact`, `_analyze_memory_impact`, `_analyze_disk_impact` */
  function ImpactOf(c: Component, d: Sample): (r: Option<Impact>)
    ensures var v := Get(d, ComponentMetric(c));
      (r.None? <==> v < Floor(c)) &&
      (r.Some? ==>
         r.value.component == c &&
         Floor(c) / 10.0 <= r.value.score <= 10.0 && (v <= 100.0 ==> r.value.score == v / 10.0) &&
         (r.value.risk == Critical <==> v > CriticalCut(c)) &&
         (r.value.risk == High <==> HighCut(c) < v <= CriticalCut(c)) &&
         (r.value.risk == Medium <==> v <= HighCut(c)))
  {
    var v := Get(d, ComponentMetric(c));
    if v < Floor(c) then None
    else
      var risk := if v > CriticalCut(c) then Critical else if v > HighCut(c) then High else Medium;
      Some(Impact(c, MinR(10.0, v / 10.0), risk))
  }

  /** `analyze_resource_impact`: cpu, then memory, then disk. */
  function ResourceImpact(d: Sample): (r: seq<Impact>)
    ensures |r| <= 3
    ensures forall c: Component :: (exists x :: x in r && x.component == c) <==> Get(d, ComponentMetric(c)) >= Floor(c)
  {
    var r := AsList(ImpactOf(Cpu, d)) + AsList(ImpactOf(Memory, d)) + AsList(ImpactOf(Disk, d));
    assert forall c: Component :: ImpactOf(c, d).Some? ==> ImpactOf(c, d).value in r;
    r
  }


  // ---------------------------------------------------------------------
  // Bottlenecks and saturation
  // ---------------------------------------------------------------------

  /** The utilization above which a component is a bottleneck. */
  function BottleneckThreshold(c: Component): real
  {
    match c
    case Cpu => 85.0
    case Memory => 90.0
    case Disk => 95.0
  }

  function BottleneckName(c: Component): string
  {
    match c
    case Cpu => "CPU"
    case Memory => "Memory"
    case Disk => "Disk"
  }

  /** One `ResourceBottleneck`; the saturation estimate is in hours from
      now, and the recommendations are fixed lists per component. */
  datatype Bottleneck = Bottleneck(component: Component, severity: real, utilization: real, threshold: real, saturationHours: Option<real>)

  const SaturationLevel: real := 98.0
  const SaturationHorizon: real := 168.0

  /** `_predict_saturation_time`: a line fitted to the last ten values is
      followed up to 98%; a crossing within a week is reported, each data
      point taken as half an hour. */
  function SaturationHours(rows: seq<Sample>, name: string, slope: seq<real> -> real): (r: Option<real>)
    ensures r.Some? ==>
      |rows| >= 5 && 0.0 < r.value < SaturationHorizon * 0.5 &&
      slope(Column(LastN(rows, 10), name)) > 0.0 &&
      Get(rows[|rows| - 1], name) < SaturationLevel
    ensures r.Some? ==> var values := Column(LastN(rows, 10), name);
      r.value == (SaturationLevel - values[|values| - 1]) / slope(values) * 0.5
  {
    if |rows| < 5 then None
    else
      var last := LastN(rows, 10);
      var values := Column(last, name);
      assert |last| == 10 || |last| == |rows|;
      if |values| < 3 then None
      else
        var s := slope(values);
        if s <= 0.0 then None
        else
          var hours := (SaturationLevel - values[|values| - 1]) / s;
          assert last[|last| - 1] == rows[|rows| - 1];
          if 0.0 < hours < SaturationHorizon then Some(hours * 0.5) else None
  }

  function BottleneckOf(c: Component, rows: seq<Sample>, slope: seq<real> -> real): (r: Option<Bottleneck>)
    requires rows != []
    ensures var v := Get(rows[|rows| - 1], ComponentMetric(c)); var t := BottleneckThreshold(c);
      (r.Some? <==> v > t) &&
      (r.Some? ==>
         r.value.component == c && r.value.utilization == v && r.value.threshold == t &&
         0.0 < r.value.severity <= 10.0 &&
         (v <= 100.0 ==> r.value.severity == (v - t) / (100.0 - t) * 10.0) &&
         r.value.saturationHours == SaturationHours(rows, ComponentMetric(c), slope))
  {
    var v := Get(rows[|rows| - 1], ComponentMetric(c));
    var t := BottleneckThreshold(c);
    if v > t then
      Some(Bottleneck(c, MinR(10.0, (v - t) / (100.0 - t) * 10.0), v, t, SaturationHours(rows, ComponentMetric(c), slope)))
    else None
  }

  /** `identify_bottlenecks`: only the latest sample decides, in the order
      cpu, memory, disk. */
  function IdentifyBottlenecks(rows: seq<Sample>, slope: seq<real> -> real): (r: seq<Bottleneck>)
    ensures rows == [] ==> r == []
    ensures |r| <= 3
  {
    if rows == [] then []
    else AsList(BottleneckOf(Cpu, rows, slope)) + AsList(BottleneckOf(Memory, rows, slope)) + AsList(BottleneckOf(Disk, rows, slope))
  }

  /** A component is reported exactly when its latest utilization is above
      its threshold. */
  lemma BottlenecksReported(rows: seq<Sample>, slope: seq<real> -> real)
    requires rows != []
    ensures var r := IdentifyBottlenecks(rows, slope);
      forall c: Component ::
        (exists b :: b in r && b.component == c) <==> Get(rows[|rows| - 1], ComponentMetric(c)) > BottleneckThreshold(c)
  {
    var r := IdentifyBottlenecks(rows, slope);
    forall c: Component
      ensures (exists b :: b in r && b.component == c) <==> BottleneckOf(c, rows, slope).Some?
    {
      if BottleneckOf(c, rows, slope).Some? {
        assert BottleneckOf(c, rows, slope).value in r;
      } else {
        forall b | b in r ensures b.component != c {
          var d :| d in [Cpu, Memory, Disk] && BottleneckOf(d, rows, slope) == Some(b) by {
            assert b in AsList(BottleneckOf(Cpu, rows, slope)) || b in AsList(BottleneckOf(Memory, rows, slope)) || b in AsList(BottleneckOf(Disk, rows, slope));
          }
        }
      }
    }
  }

  /** Samples before the latest one change a component's bottleneck only
      through its saturation estimate. */
  lemma BottleneckUsesLatest(c: Component, a: seq<Sample>, b: seq<Sample>, last: Sample, slope: seq<real> -> real)
    ensures BottleneckOf(c, a + [last], slope).Some? == BottleneckOf(c, b + [last], slope).Some?
    ensures BottleneckOf(c, a + [last], slope).Some? ==>
      BottleneckOf(c, a + [last], slope).value.(saturationHours := None) ==
      BottleneckOf(c, b + [last], slope).value.(saturationHours := None)
  {
    assert (a + [last])[|a + [last]| - 1] == last;
    assert (b + [last])[|b + [last]| - 1] == last;
  }

  // ---------------------------------------------------------------------
  // Health index
  // ---------------------------------------------------------------------

  /** `_calculate_component_health`: full health up to 70% of the
      threshold, down linearly to 70 at the threshold, then down to 0 at
      100% utilization. */
  function ComponentHealth(v: real, threshold: real): (h: real)
    requires 0.0 < threshold < 100.0
    ensures 0.0 <= h <= 100.0
    ensures v <= threshold * 0.7 <==> h == 100.0
    ensures v <= threshold ==> h >= 70.0
    ensures v > threshold ==> h < 70.0
    ensures v >= 100.0 ==> h == 0.0
  {
    if v <= threshold * 0.7 then 100.0
    else if v <= threshold then
      var f := (v - threshold * 0.7) / (threshold * 0.3);
      Ratio(v - threshold * 0.7, threshold * 0.3);
      100.0 - f * 30.0
    else
      var g := (v - threshold) / (100.0 - threshold);
      Ratio(v - threshold, 100.0 - threshold);
      MaxR(0.0, 70.0 - g * 70.0)
  }

  /** A positive fraction is positive, and at most 1 exactly when the
      numerator is at most the denominator. */
  lemma Ratio(a: real, d: real)
    requires d > 0.0
    ensures a > 0.0 ==> a / d > 0.0
    ensures a <= d ==> a / d <= 1.0
    ensures a >= d ==> a / d >= 1.0
  {
    assert (a / d) * d == a;
    if a / d > 1.0 {
      assert (a / d) * d > d;
    }
    if a / d < 1.0 {
      assert (a / d) * d < d;
    }
  }

  /** More utilization never means more health. */
  lemma ComponentHealthMonotone(v1: real, v2: real, threshold: real)
    requires 0.0 < threshold < 100.0 && v1 <= v2
    ensures ComponentHealth(v2, threshold) <= ComponentHealth(v1, threshold)
  {
    var lo := threshold * 0.7;
    if lo < v1 && v2 <= threshold {
      DivideMonotone(v1 - lo, v2 - lo, threshold * 0.3);
    } else if threshold < v1 {
      DivideMonotone(v1 - threshold, v2 - threshold, 100.0 - threshold);
    }
  }

  lemma DivideMonotone(a: real, b: real, d: real)
    requires a <= b && d > 0.0
    ensures a / d <= b / d
  {
    assert b / d - a / d == (b - a) / d;
  }

  /** The pieces meet: at 70% of the threshold the linear part gives 100,
      and at the threshold both the middle and the upper formula give 70. */
  lemma ComponentHealthContinuous(threshold: real)
    requires 0.0 < threshold < 100.0
    ensures 100.0 - ((threshold * 0.7 - threshold * 0.7) / (threshold * 0.3)) * 30.0 == 100.0
    ensures ComponentHealth(threshold, threshold) == 70.0
    ensures 70.0 - ((threshold - threshold) / (100.0 - threshold)) * 70.0 == 70.0
  {
    assert (threshold - threshold * 0.7) / (threshold * 0.3) == 1.0;
  }

  /** The load-based network score: 50 points per load unit per core. */
  function NetworkHealth(load: real, cpuCount: int): (h: real)
    ensures h >= 0.0
    ensures load >= 0.0 ==> h <= 100.0
    ensures cpuCount <= 0 || load <= 0.0 ==> (load >= 0.0 ==> h == 100.0)
    ensures cpuCount > 0 && load >= 2.0 * cpuCount as real ==> h == 0.0
  {
    if cpuCount > 0 then
      var h := MaxR(0.0, 100.0 - (load / cpuCount as real) * 50.0);
      assert load >= 2.0 * cpuCount as real ==> load / cpuCount as real >= 2.0;
      h
    else 100.0
  }

  datatype Stability = Stable | Improving | Declining

  function StabilityValue(s: Stability): string
  {
    match s
    case Stable => "stable"
    case Improving => "improving"
    case Declining => "declining"
  }

  /** The coefficient of variation, 0 when the mean is not positive. */
  function Variation(values: seq<real>, stdev: seq<real> -> real): real
    requires values != []
  {
    if Mean(values) > 0.0 then stdev(values) / Mean(values) else 0.0
  }

  /** `_analyze_stability_trend` over the last five samples. */
  function StabilityTrend(rows: seq<Sample>, stdev: seq<real> -> real): (s: Stability)
    ensures |rows| < 5 ==> s == Stable
    ensures |rows| >= 5 ==>
      var last := LastN(rows, 5);
      var cv := (Variation(Column(last, "cpu_percent"), stdev) + Variation(Column(last, "memory_percent"), stdev)) / 2.0;
      (s == Stable <==> cv < 0.1) && (s == Improving <==> 0.1 <= cv < 0.2) && (s == Declining <==> cv >= 0.2)
  {
    if |rows| < 5 then Stable
    else
      var last := LastN(rows, 5);
      var cv := (Variation(Column(last, "cpu_percent"), stdev) + Variation(Column(last, "memory_percent"), stdev)) / 2.0;
      if cv < 0.1 then Stable else if cv < 0.2 then Improving else Declining
  }

  /** The samples before the last five play no part in the trend. */
  lemma StabilityUsesLastFive(older: seq<Sample>, rows: seq<Sample>, stdev: seq<real> -> real)
    requires |rows| == 5
    ensures StabilityTrend(older + rows, stdev) == StabilityTrend(rows, stdev)
  {
    assert LastN(older + rows, 5) == rows;
    assert LastN(rows, 5) == rows;
  }

  datatype Issue = CpuExtreme | MemoryDanger | DiskFull | LoadHigh

  function IssueMessage(i: Issue): string
  {
    match i
    case CpuExtreme => "CPU 使用率極高，可能影響系統響應"
    case MemoryDanger => "記憶體使用率危險，可能觸發 OOM"
    case DiskFull => "磁碟空間嚴重不足，可能影響系統操作"
    case LoadHigh => "系統負載過高，處理能力不足"
  }

  /** `_identify_critical_issues` */
  function CriticalIssues(d: Sample, cpuCount: int): (r: seq<Issue>)
    ensures |r| <= 4
    ensures CpuExtreme in r <==> Get(d, "cpu_percent") > 90.0
    ensures MemoryDanger in r <==> Get(d, "memory_percent") > 95.0
    ensures DiskFull in r <==> Get(d, "disk_percent") > 95.0
    ensures LoadHigh in r <==> Get(d, "load_avg_1min") > (cpuCount * 2) as real
    ensures forall a, b :: 0 <= a < b < |r| ==> r[a] != r[b]
  {
    (if Get(d, "cpu_percent") > 90.0 then [CpuExtreme] else []) +
    (if Get(d, "memory_percent") > 95.0 then [MemoryDanger] else []) +
    (if Get(d, "disk_percent") > 95.0 then [DiskFull] else []) +
    (if Get(d, "load_avg_1min") > (cpuCount * 2) as real then [LoadHigh] else [])
  }

  /** One `SystemHealthIndex`. */
  datatype HealthIndex = HealthIndex(
    overall: real,
    cpu: real,
    memory: real,
    disk: real,
    network: real,
    stability: Stability,
    issues: seq<Issue>)

  /** `calculate_system_health_index`; `cpuCount` is the number of cores. */
  function SystemHealthIndex(d: Sample, trend: seq<Sample>, cpuCount: int, stdev: seq<real> -> real): (h: HealthIndex)
    ensures h.cpu == ComponentHealth(Get(d, "cpu_percent"), 80.0)
    ensures h.memory == ComponentHealth(Get(d, "memory_percent"), 85.0)
    ensures h.disk == ComponentHealth(Get(d, "disk_percent"), 90.0)
    ensures h.network == NetworkHealth(Get(d, "load_avg_1min"), cpuCount)
    ensures h.overall == Mean([h.cpu, h.memory, h.disk, h.network])
    ensures 0.0 <= h.overall && (Get(d, "load_avg_1min") >= 0.0 ==> h.overall <= 100.0)
    ensures h.stability == StabilityTrend(trend, stdev) && h.issues == CriticalIssues(d, cpuCount)
  {
    var cpu := ComponentHealth(Get(d, "cpu_percent"), 80.0);
    var memory := ComponentHealth(Get(d, "memory_percent"), 85.0);
    var disk := ComponentHealth(Get(d, "disk_percent"), 90.0);
    var network := NetworkHealth(Get(d, "load_avg_1min"), cpuCount);
    var overall := (cpu + memory + disk + network) / 4.0;
    MeanOfFour(cpu, memory, disk, network);
    HealthIndex(overall, cpu, memory, disk, network, StabilityTrend(trend, stdev), CriticalIssues(d, cpuCount))
  }

  lemma MeanOfFour(a: real, b: real, c: real, d: real)
    ensures Mean([a, b, c, d]) == (a + b + c + d) / 4.0
  {
    assert [a, b, c, d][..3] == [a, b, c];
    assert [a, b, c][..2] == [a, b];
    assert [a, b][..1] == [a];
    assert [a][..0] == [];
    assert Sum([a]) == a;
    assert Sum([a, b]) == a + b;
    assert Sum([a, b, c]) == a + b + c;
    assert Sum([a, b, c, d]) == a + b + c + d;
  }

  /** A system below 70% of every threshold, with no load, is fully
      healthy and has no critical issue. */
  lemma IdleSystemIsHealthy(d: Sample, trend: seq<Sample>, cpuCount: int, stdev: seq<real> -> real)
    requires Get(d, "cpu_percent") <= 56.0 && Get(d, "memory_percent") <= 59.5 && Get(d, "disk_percent") <= 63.0
    requires Get(d, "load_avg_1min") == 0.0 && cpuCount >= 0
    ensures SystemHealthIndex(d, trend, cpuCount, stdev).overall == 100.0
    ensures SystemHealthIndex(d, trend, cpuCount, stdev).issues == []
  {
    var h := SystemHealthIndex(d, trend, cpuCount, stdev);
    assert h.cpu == 100.0 && h.memory == 100.0 && h.disk == 100.0 && h.network == 100.0;
    MeanOfFour(100.0, 100.0, 100.0, 100.0);
  }
}
