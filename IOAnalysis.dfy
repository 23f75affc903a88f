/**
 * The I/O analyzer: transfer rates from successive counter snapshots, the
 * 24-hour history, the top I/O processes, and the bottleneck, pattern and
 * file-system classifications over that history.
 */
module IOAnalysis {
  import opened Common
  import opened Stats
  import Sorting

  // ---------------------------------------------------------------------
  // Counter snapshots
  // ---------------------------------------------------------------------

  /** One disk's cumulative counters (the operation and time counters play
      no part in the analysis). */
  datatype DiskStat = DiskStat(device: string, readBytes: int, writeBytes: int)

  /** One interface's cumulative counters; loopback interfaces are already
      left out by the collection. */
  datatype NetStat = NetStat(interface: string, bytesSent: int, bytesRecv: int)

  /** One process's I/O counters. */
  datatype ProcessIO = ProcessIO(pid: int, name: string, readBytes: int, writeBytes: int)

  /** A named pair of cumulative byte counters. */
  datatype Counters = Counters(name: string, first: int, second: int)

  /** A disk as (read, write). */
  function DiskCounters(stats: seq<DiskStat>): (cs: seq<Counters>)
    ensures |cs| == |stats|
    ensures forall i :: 0 <= i < |stats| ==> cs[i] == Counters(stats[i].device, stats[i].readBytes, stats[i].writeBytes)
  {
    seq(|stats|, i requires 0 <= i < |stats| => Counters(stats[i].device, stats[i].readBytes, stats[i].writeBytes))
  }

  /** An interface as (received, sent). */
  function NetCounters(stats: seq<NetStat>): (cs: seq<Counters>)
    ensures |cs| == |stats|
    ensures forall i :: 0 <= i < |stats| ==> cs[i] == Counters(stats[i].interface, stats[i].bytesRecv, stats[i].bytesSent)
  {
    seq(|stats|, i requires 0 <= i < |stats| => Counters(stats[i].interface, stats[i].bytesRecv, stats[i].bytesSent))
  }

  /** `{stat.name: stat for stat in stats}`: a later entry for a name
      replaces an earlier one. */
  function ByName(stats: seq<Counters>): (m: map<string, Counters>)
    ensures forall n :: n in m <==> exists i :: 0 <= i < |stats| && stats[i].name == n
    ensures forall n :: n in m ==> m[n] in stats && m[n].name == n
  {
    if stats == [] then map[]
    else
      var last := stats[|stats| - 1];
      var init := stats[..|stats| - 1];
      var m := ByName(init);
      assert forall i :: 0 <= i < |init| ==> init[i] == stats[i];
      m[last.name := last]
  }

  /** The names, each once, in order of first appearance (the dictionary's
      iteration order). */
  function Names(stats: seq<Counters>): (ns: seq<string>)
    ensures forall n :: n in ns <==> exists i :: 0 <= i < |stats| && stats[i].name == n
  {
    if stats == [] then []
    else
      var init := stats[..|stats| - 1];
      var ns := Names(init);
      var n := stats[|stats| - 1].name;
      assert forall i :: 0 <= i < |init| ==> init[i] == stats[i];
      if n in ns then ns else ns + [n]
  }

  /** `max(0, now - before)`: a counter that went backwards (a reset)
      counts as no transfer. */
  function Gain(now: int, before: int): (g: nat)
    ensures g >= now - before
    ensures now <= before ==> g == 0
  {
    if now > before then now - before else 0
  }

  /** The gain of one counter of a name, or nothing when the previous
      snapshot does not have that name. */
  function GainOf(n: string, cur: map<string, Counters>, last: map<string, Counters>, first: bool): nat
    requires n in cur
  {
    if n !in last then 0
    else if first then Gain(cur[n].first, last[n].first)
    else Gain(cur[n].second, last[n].second)
  }

  /** The summed gains over the names. */
  function DeltaSum(names: seq<string>, cur: map<string, Counters>, last: map<string, Counters>, first: bool): (d: nat)
    requires forall n :: n in names ==> n in cur
  {
    if names == [] then 0
    else
      DeltaSum(names[..|names| - 1], cur, last, first) + GainOf(names[|names| - 1], cur, last, first)
  }

  /** Unchanged counters transfer nothing. */
  lemma {:induction false} DeltaSumOfSame(names: seq<string>, cur: map<string, Counters>, first: bool)
    requires forall n :: n in names ==> n in cur
    ensures DeltaSum(names, cur, cur, first) == 0
  {
    if names != [] {
      DeltaSumOfSame(names[..|names| - 1], cur, first);
    }
  }

  /** Names the previous snapshot does not have contribute nothing. */
  lemma {:induction false} DeltaSumOfNew(names: seq<string>, cur: map<string, Counters>, last: map<string, Counters>, first: bool)
    requires forall n :: n in names ==> n in cur && n !in last
    ensures DeltaSum(names, cur, last, first) == 0
  {
    if names != [] {
      DeltaSumOfNew(names[..|names| - 1], cur, last, first);
    }
  }

  const MiB: real := 1048576.0

  /** The total gain of each counter over `elapsed` seconds, in MB/s. */
  function Rates(cur: seq<Counters>, last: seq<Counters>, elapsed: real): (r: (real, real))
    requires elapsed > 0.0
    ensures r.0 >= 0.0 && r.1 >= 0.0
  {
    var names := Names(cur);
    var c := ByName(cur);
    var l := ByName(last);
    var d1 := DeltaSum(names, c, l, true);
    var d2 := DeltaSum(names, c, l, false);
    ((d1 as real / elapsed) / MiB, (d2 as real / elapsed) / MiB)
  }

  /** A snapshot compared with itself, or with one sharing no name, gives
      zero rates. */
  lemma RatesOfUnchanged(cur: seq<Counters>, last: seq<Counters>, elapsed: real)
    requires elapsed > 0.0
    ensures Rates(cur, cur, elapsed) == (0.0, 0.0)
    ensures (forall i, j :: 0 <= i < |cur| && 0 <= j < |last| ==> cur[i].name != last[j].name) ==>
      Rates(cur, last, elapsed) == (0.0, 0.0)
  {
    RatesOfSame(cur, elapsed);
    if forall i, j :: 0 <= i < |cur| && 0 <= j < |last| ==> cur[i].name != last[j].name {
      RatesOfDisjoint(cur, last, elapsed);
    }
  }

  /** Every listed name has an entry. */
  lemma NamesHaveEntries(stats: seq<Counters>)
    ensures forall n :: n in Names(stats) ==> n in ByName(stats)
  {
  }

  /** No gain on either counter means zero rates. */
  lemma RatesOfNoGain(cur: seq<Counters>, last: seq<Counters>, elapsed: real)
    requires elapsed > 0.0
    requires forall n :: n in Names(cur) ==> n in ByName(cur)
    requires DeltaSum(Names(cur), ByName(cur), ByName(last), true) == 0
    requires DeltaSum(Names(cur), ByName(cur), ByName(last), false) == 0
    ensures Rates(cur, last, elapsed) == (0.0, 0.0)
  {
  }

  lemma RatesOfSame(cur: seq<Counters>, elapsed: real)
    requires elapsed > 0.0
    ensures Rates(cur, cur, elapsed) == (0.0, 0.0)
  {
    NamesHaveEntries(cur);
    DeltaSumOfSame(Names(cur), ByName(cur), true);
    DeltaSumOfSame(Names(cur), ByName(cur), false);
    RatesOfNoGain(cur, cur, elapsed);
  }

  lemma RatesOfDisjoint(cur: seq<Counters>, last: seq<Counters>, elapsed: real)
    requires elapsed > 0.0
    requires forall i, j :: 0 <= i < |cur| && 0 <= j < |last| ==> cur[i].name != last[j].name
    ensures Rates(cur, last, elapsed) == (0.0, 0.0)
  {
    NamesNotInLast(cur, last);
    DeltaSumOfNew(Names(cur), ByName(cur), ByName(last), true);
    DeltaSumOfNew(Names(cur), ByName(cur), ByName(last), false);
    RatesOfNoGain(cur, last, elapsed);
  }

  /** With no name in common, no listed name has an entry in the other
      snapshot. */
  lemma NamesNotInLast(cur: seq<Counters>, last: seq<Counters>)
    requires forall i, j :: 0 <= i < |cur| && 0 <= j < |last| ==> cur[i].name != last[j].name
    ensures forall n :: n in Names(cur) ==> n in ByName(cur) && n !in ByName(last)
  {
    forall n | n in Names(cur) ensures n in ByName(cur) && n !in ByName(last) {
      var i :| 0 <= i < |cur| && cur[i].name == n;
      assert forall j :: 0 <= j < |last| ==> last[j].name != cur[i].name;
    }
  }

  /** The delta loop of both rate calculations. */
  method SumDeltas(cur: seq<Counters>, last: seq<Counters>) returns (d1: nat, d2: nat)
    ensures d1 == DeltaSum(Names(cur), ByName(cur), ByName(last), true)
    ensures d2 == DeltaSum(Names(cur), ByName(cur), ByName(last), false)
  {
    var c := ByName(cur);
    var l := ByName(last);
    var names := Names(cur);
    assert forall n :: n in names ==> n in c;
    d1, d2 := 0, 0;
    for k := 0 to |names|
      invariant d1 == DeltaSum(names[..k], c, l, true)
      invariant d2 == DeltaSum(names[..k], c, l, false)
    {
      assert names[..k + 1][..k] == names[..k];
      var n := names[k];
      if n in l {
        d1 := d1 + Gain(c[n].first, l[n].first);
        d2 := d2 + Gain(c[n].second, l[n].second);
      }
    }
    assert names[..|names|] == names;
  }

  // ---------------------------------------------------------------------
  // Rate steps
  // ---------------------------------------------------------------------

  /** The analyzer's stored snapshots and the time of the last disk
      measurement (`time.time()`, in seconds). */
  datatype RateState = RateState(lastDisk: Option<seq<DiskStat>>, lastNetwork: Option<seq<NetStat>>, lastTime: Option<real>)

  /** Two rates and the state after computing them. */
  datatype Step = Step(first: real, second: real, state: RateState)

  /** `_calculate_disk_rates` at time `t`. The first call stores the
      snapshot and the time and reports (0, 0); a call with no time elapsed
      reports (0, 0) and keeps the state; otherwise the rates are the
      counters' gains over the elapsed time and the snapshot and time
      become the current ones. The network snapshot is never touched, and
      rates are never negative. */
  function DiskStep(s: RateState, cur: seq<DiskStat>, t: real): (r: Step)
    ensures r.first >= 0.0 && r.second >= 0.0 && r.state.lastNetwork == s.lastNetwork
    ensures s.lastDisk.None? || s.lastTime.None? ==>
      r.first == 0.0 && r.second == 0.0 && r.state.lastDisk == Some(cur) && r.state.lastTime == Some(t)
    ensures s.lastDisk.Some? && s.lastTime.Some? && t <= s.lastTime.value ==> r == Step(0.0, 0.0, s)
    ensures s.lastDisk.Some? && s.lastTime.Some? && t > s.lastTime.value ==>
      (r.first, r.second) == Rates(DiskCounters(cur), DiskCounters(s.lastDisk.value), t - s.lastTime.value) &&
      r.state.lastDisk == Some(cur) && r.state.lastTime == Some(t)
  {
    if s.lastDisk.None? || s.lastTime.None? then Step(0.0, 0.0, s.(lastDisk := Some(cur), lastTime := Some(t)))
    else
      var elapsed := t - s.lastTime.value;
      if elapsed <= 0.0 then Step(0.0, 0.0, s)
      else
        var r := Rates(DiskCounters(cur), DiskCounters(s.lastDisk.value), elapsed);
        Step(r.0, r.1, s.(lastDisk := Some(cur), lastTime := Some(t)))
  }

  /** The seconds the network calculation divides by: the time since the
      stored measurement time, or 0 when there is none (or it is 0). */
  function NetworkElapsed(s: RateState, t: real): real
  {
    if s.lastTime.Some? && s.lastTime.value != 0.0 then t - s.lastTime.value else 0.0
  }

  /** `_calculate_network_rates` at time `t`. It keeps the disk snapshot
      and never sets the measurement time; the first call stores its
      snapshot and reports (0, 0); a call with no usable elapsed time keeps
      the state; rates are never negative. */
  function NetworkStep(s: RateState, cur: seq<NetStat>, t: real): (r: Step)
    ensures r.first >= 0.0 && r.second >= 0.0
    ensures r.state.lastDisk == s.lastDisk && r.state.lastTime == s.lastTime
    ensures s.lastNetwork.None? ==> r.first == 0.0 && r.second == 0.0 && r.state.lastNetwork == Some(cur)
    ensures s.lastNetwork.Some? && NetworkElapsed(s, t) <= 0.0 ==> r == Step(0.0, 0.0, s)
    ensures s.lastNetwork.Some? && NetworkElapsed(s, t) > 0.0 ==>
      (r.first, r.second) == Rates(NetCounters(cur), NetCounters(s.lastNetwork.value), NetworkElapsed(s, t)) &&
      r.state.lastNetwork == Some(cur)
  {
    if s.lastNetwork.None? then Step(0.0, 0.0, s.(lastNetwork := Some(cur)))
    else
      var elapsed := NetworkElapsed(s, t);
      if elapsed <= 0.0 then Step(0.0, 0.0, s)
      else
        var r := Rates(NetCounters(cur), NetCounters(s.lastNetwork.value), elapsed);
        Step(r.0, r.1, s.(lastNetwork := Some(cur)))
  }

  /** In one collection cycle the disk call runs first: once it has measured
      at `tDisk`, the network call at `tNet` divides by `tNet - tDisk`, the
      time between the two calls of the same cycle. */
  lemma NetworkIntervalInCycle(s: RateState, disk: seq<DiskStat>, net: seq<NetStat>, tDisk: real, tNet: real)
    requires s.lastDisk.Some? && s.lastTime.Some? && tDisk > s.lastTime.value && tDisk != 0.0
    ensures NetworkElapsed(DiskStep(s, disk, tDisk).state, tNet) == tNet - tDisk
  {
  }

  /** A concrete cycle: one MiB is received in the minute between two
      cycles whose network call runs a millisecond after the disk call; it
      is reported as 1000 MB/s. */
  lemma NetworkRateAsWritten()
    ensures var s := RateState(Some([]), Some([NetStat("eth0", 0, 0)]), Some(100.0));
      var s' := DiskStep(s, [], 160.0).state;
      NetworkStep(s', [NetStat("eth0", 0, 1048576)], 160.001).first == 1000.0
  {
    var s := RateState(Some([]), Some([NetStat("eth0", 0, 0)]), Some(100.0));
    var s' := DiskStep(s, [], 160.0).state;
    assert s'.lastTime == Some(160.0);
    assert NetworkElapsed(s', 160.001) == 0.001;
    OneMiBRates(0.001);
  }

  /** One MiB received on one interface, over `elapsed` seconds. */
  lemma OneMiBRates(elapsed: real)
    requires elapsed > 0.0
    ensures Rates(NetCounters([NetStat("eth0", 0, 1048576)]), NetCounters([NetStat("eth0", 0, 0)]), elapsed).0 == 1.0 / elapsed
  {
    var cur := NetCounters([NetStat("eth0", 0, 1048576)]);
    var last := NetCounters([NetStat("eth0", 0, 0)]);
    assert cur == [Counters("eth0", 1048576, 0)];
    assert last == [Counters("eth0", 0, 0)];
    assert Names(cur) == ["eth0"];
    assert ByName(cur) == map["eth0" := Counters("eth0", 1048576, 0)];
    assert ByName(last) == map["eth0" := Counters("eth0", 0, 0)];
    assert DeltaSum(["eth0"], ByName(cur), ByName(last), true) == 1048576 by {
      assert ["eth0"][..0] == [];
    }
    assert (1048576.0 / elapsed) / MiB == 1.0 / elapsed;
  }

  /** The network step as intended: the rates are taken over the time since
      the previous network snapshot, stored with it. */
  function NetworkStepIntended(prev: Option<(seq<NetStat>, real)>, cur: seq<NetStat>, t: real): (r: (real, real, Option<(seq<NetStat>, real)>))
    ensures r.0 >= 0.0 && r.1 >= 0.0
    ensures prev.None? ==> r == (0.0, 0.0, Some((cur, t)))
    ensures prev.Some? && t > prev.value.1 ==>
      (r.0, r.1) == Rates(NetCounters(cur), NetCounters(prev.value.0), t - prev.value.1) && r.2 == Some((cur, t))
  {
    if prev.None? then (0.0, 0.0, Some((cur, t)))
    else
      var elapsed := t - prev.value.1;
      if elapsed <= 0.0 then (0.0, 0.0, prev)
      else
        var rates := Rates(NetCounters(cur), NetCounters(prev.value.0), elapsed);
        (rates.0, rates.1, Some((cur, t)))
  }

  /** The same minute measured as intended: one MiB over the 60.001 seconds
      since the previous network snapshot, under 1 MB/s. */
  lemma NetworkRateIntended()
    ensures NetworkStepIntended(Some(([NetStat("eth0", 0, 0)], 100.001)), [NetStat("eth0", 0, 1048576)], 160.001).0 < 1.0
  {
    OneMiBRates(60.0);
  }

  // ---------------------------------------------------------------------
  // Samples, history and top processes
  // ---------------------------------------------------------------------

  /** One `IOPerformanceMetrics` sample; `timestamp` is in seconds. */
  datatype IOSample = IOSample(
    timestamp: int,
    disk: seq<DiskStat>,
    network: seq<NetStat>,
    topProcesses: seq<ProcessIO>,
    diskReadRate: real,
    diskWriteRate: real,
    networkInRate: real,
    networkOutRate: real)

  const HistoryHours: int := 24
  const TopProcessCount: int := 10

  function SampleSince(cutoff: int): IOSample -> bool
  {
    (m: IOSample) => m.timestamp >= cutoff
  }

  /** Bytes read and written by a process. */
  function TotalBytes(p: ProcessIO): int
  {
    p.readBytes + p.writeBytes
  }

  function TotalIO(p: ProcessIO): Sorting.SortKey
  {
    Sorting.Num(TotalBytes(p) as real)
  }

  /** The ten processes with the most bytes read and written, most first. */
  function TopProcesses(procs: seq<ProcessIO>): (top: seq<ProcessIO>)
    ensures |top| <= TopProcessCount
  {
    Take(Sorting.SortBy(procs, TotalIO, true), TopProcessCount)
  }

  /** A list sorted by descending total holds non-increasing totals. */
  lemma DescendingTotals(s: seq<ProcessIO>)
    requires Sorting.SortedBy(s, TotalIO, true)
    ensures forall j, k :: 0 <= j < k < |s| ==> TotalBytes(s[j]) >= TotalBytes(s[k])
  {
    forall j, k | 0 <= j < k < |s|
      ensures TotalBytes(s[j]) >= TotalBytes(s[k])
    {
      assert !Sorting.Before(TotalIO, true, s[k], s[j]);
    }
  }

  /** The top processes are taken from the list in non-increasing order of
      total bytes, and with ten or fewer processes all of them are kept. */
  lemma TopProcessesOrder(procs: seq<ProcessIO>)
    ensures var top := TopProcesses(procs);
      (forall p :: p in top ==> p in procs) &&
      (forall j, k :: 0 <= j < k < |top| ==> TotalBytes(top[j]) >= TotalBytes(top[k])) &&
      (|procs| <= TopProcessCount ==> multiset(top) == multiset(procs))
  {
    var sorted := Sorting.SortBy(procs, TotalIO, true);
    var top := TopProcesses(procs);
    assert top == sorted[..Min(TopProcessCount, |sorted|)];
    DescendingTotals(sorted);
    forall p | p in top
      ensures p in procs
    {
      assert p in multiset(sorted);
    }
    if |procs| <= TopProcessCount {
      assert top == sorted;
    }
  }

  /** Every process left out moved no more bytes than any kept one. */
  lemma TopProcessesCutoff(procs: seq<ProcessIO>, p: ProcessIO, q: ProcessIO)
    requires p in procs && p !in TopProcesses(procs) && q in TopProcesses(procs)
    ensures TotalBytes(p) <= TotalBytes(q)
  {
    var sorted := Sorting.SortBy(procs, TotalIO, true);
    var top := TopProcesses(procs);
    assert top == sorted[..Min(TopProcessCount, |sorted|)];
    DescendingTotals(sorted);
    assert p in multiset(sorted);
    var j :| 0 <= j < |sorted| && sorted[j] == p;
    var i :| 0 <= i < |top| && top[i] == q;
    assert j >= |top|;
  }

  // ---------------------------------------------------------------------
  // Bottlenecks
  // ---------------------------------------------------------------------

  datatype Resource = DiskRead | DiskWrite | NetworkIn | NetworkOut

  function ResourceName(r: Resource): string
  {
    match r
    case DiskRead => "磁碟讀取"
    case DiskWrite => "磁碟寫入"
    case NetworkIn => "網路接收"
    case NetworkOut => "網路發送"
  }

  function BottleneckType(r: Resource): string
  {
    if r == DiskRead || r == DiskWrite then "disk" else "network"
  }

  /** One `IOBottleneckAnalysis` (the description and the suggestions are
      fixed texts per resource). */
  datatype Bottleneck = Bottleneck(resource: Resource, severity: real, utilization: real, maxThroughput: real, throughput: real)

  /** The average rate above which a resource is a bottleneck. */
  function Threshold(r: Resource): real
  {
    match r
    case DiskRead => 50.0
    case DiskWrite => 30.0
    case NetworkIn => 10.0
    case NetworkOut => 10.0
  }

  /** The rate per severity point: 10 MB/s for disks, 5 MB/s for networks. */
  function SeverityStep(r: Resource): real
  {
    if r == DiskRead || r == DiskWrite then 10.0 else 5.0
  }

  /** The throughput taken as full load: 100 MB/s for disks, 125 MB/s for
      a 1 Gbps network. */
  function Capacity(r: Resource): real
  {
    if r == DiskRead || r == DiskWrite then 100.0 else 125.0
  }

  /** The bottleneck of a resource whose average rate is `avg`, if any. */
  function BottleneckOf(r: Resource, avg: real): (b: Option<Bottleneck>)
    ensures b.Some? <==> avg > Threshold(r)
    ensures b.Some? ==>
      b.value.resource == r && b.value.throughput == avg && b.value.maxThroughput == Capacity(r) &&
      0.0 < b.value.severity <= 10.0 && 0.0 < b.value.utilization <= 100.0 &&
      (avg <= 10.0 * SeverityStep(r) ==> b.value.severity == avg / SeverityStep(r)) &&
      (avg <= Capacity(r) ==> b.value.utilization == avg / Capacity(r) * 100.0)
  {
    if avg > Threshold(r) then
      Some(Bottleneck(r, MinR(10.0, avg / SeverityStep(r)), MinR(100.0, (avg / Capacity(r)) * 100.0), Capacity(r), avg))
    else None
  }

  function DiskReads(ms: seq<IOSample>): (vs: seq<real>)
    ensures |vs| == |ms| && forall i :: 0 <= i < |ms| ==> vs[i] == ms[i].diskReadRate
  {
    seq(|ms|, i requires 0 <= i < |ms| => ms[i].diskReadRate)
  }

  function DiskWrites(ms: seq<IOSample>): (vs: seq<real>)
    ensures |vs| == |ms| && forall i :: 0 <= i < |ms| ==> vs[i] == ms[i].diskWriteRate
  {
    seq(|ms|, i requires 0 <= i < |ms| => ms[i].diskWriteRate)
  }

  function NetworkIns(ms: seq<IOSample>): (vs: seq<real>)
    ensures |vs| == |ms| && forall i :: 0 <= i < |ms| ==> vs[i] == ms[i].networkInRate
  {
    seq(|ms|, i requires 0 <= i < |ms| => ms[i].networkInRate)
  }

  function NetworkOuts(ms: seq<IOSample>): (vs: seq<real>)
    ensures |vs| == |ms| && forall i :: 0 <= i < |ms| ==> vs[i] == ms[i].networkOutRate
  {
    seq(|ms|, i requires 0 <= i < |ms| => ms[i].networkOutRate)
  }


  /** The mean rate of a resource over some samples. */
  function AverageRate(r: Resource, ms: seq<IOSample>): real
    requires ms != []
  {
    match r
    case DiskRead => Mean(DiskReads(ms))
    case DiskWrite => Mean(DiskWrites(ms))
    case NetworkIn => Mean(NetworkIns(ms))
    case NetworkOut => Mean(NetworkOuts(ms))
  }

  /** The bottlenecks among some resources, in the order checked. */
  function Reported(rs: seq<Resource>, ms: seq<IOSample>): seq<Bottleneck>
    requires ms != []
  {
    if rs == [] then []
    else Reported(rs[..|rs| - 1], ms) + AsList(BottleneckOf(rs[|rs| - 1], AverageRate(rs[|rs| - 1], ms)))
  }

  /** `_analyze_disk_bottlenecks`: reading, then writing. */
  function DiskBottlenecks(ms: seq<IOSample>): seq<Bottleneck>
  {
    if ms == [] then [] else Reported([DiskRead, DiskWrite], ms)
  }

  /** `_analyze_network_bottlenecks`: receiving, then sending. */
  function NetworkBottlenecks(ms: seq<IOSample>): seq<Bottleneck>
  {
    if ms == [] then [] else Reported([NetworkIn, NetworkOut], ms)
  }

  function AllBottlenecks(ms: seq<IOSample>): seq<Bottleneck>
  {
    DiskBottlenecks(ms) + NetworkBottlenecks(ms)
  }

  /** The position of a resource in the report: disks first. */
  function Rank(r: Resource): int
  {
    match r
    case DiskRead => 0
    case DiskWrite => 1
    case NetworkIn => 2
    case NetworkOut => 3
  }

  /** Each resource checked gives at most one bottleneck, of that
      resource, with severity in (0, 10] and utilization in (0, 100]. */
  lemma {:induction false} ReportedMembers(rs: seq<Resource>, ms: seq<IOSample>)
    requires ms != []
    ensures |Reported(rs, ms)| <= |rs|
    ensures forall b :: b in Reported(rs, ms) ==>
      b.resource in rs && 0.0 < b.severity <= 10.0 && 0.0 < b.utilization <= 100.0
  {
    if rs != [] {
      var init := rs[..|rs| - 1];
      ReportedMembers(init, ms);
      assert forall r :: r in init ==> r in rs;
    }
  }

  /** A checked resource is reported exactly when its average rate is above
      its threshold. */
  lemma {:induction false} ReportedExactly(rs: seq<Resource>, ms: seq<IOSample>, r: Resource)
    requires ms != [] && r in rs
    ensures (exists b :: b in Reported(rs, ms) && b.resource == r) <==> AverageRate(r, ms) > Threshold(r)
  {
    var init := rs[..|rs| - 1];
    var last := rs[|rs| - 1];
    var o := BottleneckOf(last, AverageRate(last, ms));
    ReportedMembers(init, ms);
    if r == last {
      if o.Some? {
        assert o.value in Reported(rs, ms);
      } else if last in init {
        ReportedExactly(init, ms, r);
      } else {
        assert forall b :: b in Reported(rs, ms) ==> b.resource in init;
      }
    } else {
      assert r in init;
      ReportedExactly(init, ms, r);
    }
  }

  /** Resources checked in increasing rank are reported in increasing rank. */
  lemma {:induction false} ReportedOrder(rs: seq<Resource>, ms: seq<IOSample>)
    requires ms != []
    requires forall j, k :: 0 <= j < k < |rs| ==> Rank(rs[j]) < Rank(rs[k])
    ensures var bs := Reported(rs, ms);
      forall j, k :: 0 <= j < k < |bs| ==> Rank(bs[j].resource) < Rank(bs[k].resource)
  {
    if rs != [] {
      var init := rs[..|rs| - 1];
      var last := rs[|rs| - 1];
      ReportedOrder(init, ms);
      ReportedMembers(init, ms);
      var head := Reported(init, ms);
      assert forall b :: b in head ==> Rank(b.resource) < Rank(last);
      var bs := Reported(rs, ms);
      forall j, k | 0 <= j < k < |bs|
        ensures Rank(bs[j].resource) < Rank(bs[k].resource)
      {
        if k >= |head| {
          assert bs[j] in head;
        } else {
          assert bs[j] == head[j] && bs[k] == head[k];
        }
      }
    }
  }

  const AllResources: seq<Resource> := [DiskRead, DiskWrite, NetworkIn, NetworkOut]

  /** The two reports together check every resource in rank order. */
  lemma ReportAll(ms: seq<IOSample>)
    requires ms != []
    ensures AllBottlenecks(ms) == Reported(AllResources, ms)
  {
    assert AllResources == [DiskRead, DiskWrite] + [NetworkIn, NetworkOut];
    ReportedAppend([DiskRead, DiskWrite], [NetworkIn, NetworkOut], ms);
  }

  /** Checking two lists of resources one after the other reports both. */
  lemma {:induction false} ReportedAppend(a: seq<Resource>, b: seq<Resource>, ms: seq<IOSample>)
    requires ms != []
    ensures Reported(a + b, ms) == Reported(a, ms) + Reported(b, ms)
  {
    if b == [] {
      assert a + b == a;
    } else {
      assert (a + b)[..|a + b| - 1] == a + b[..|b| - 1];
      ReportedAppend(a, b[..|b| - 1], ms);
    }
  }

  /** Over some samples, a resource is reported exactly when its average
      rate is above its threshold, at most once, disks before networks,
      with severity in (0, 10] and utilization in (0, 100]; no samples give
      no bottlenecks. */
  lemma BottlenecksFacts(ms: seq<IOSample>)
    ensures var bs := AllBottlenecks(ms);
      |bs| <= 4 &&
      (ms == [] ==> bs == []) &&
      (forall b :: b in bs ==> 0.0 < b.severity <= 10.0 && 0.0 < b.utilization <= 100.0) &&
      (ms != [] ==> forall r: Resource ::
         ((exists b :: b in bs && b.resource == r) <==> AverageRate(r, ms) > Threshold(r))) &&
      (forall j, k :: 0 <= j < k < |bs| ==> Rank(bs[j].resource) < Rank(bs[k].resource))
  {
    if ms != [] {
      var all := AllResources;
      ReportAll(ms);
      ReportedMembers(all, ms);
      ReportedOrder(all, ms);
      forall r: Resource
        ensures (exists b :: b in AllBottlenecks(ms) && b.resource == r) <==> AverageRate(r, ms) > Threshold(r)
      {
        assert all[Rank(r)] == r;
        ReportedExactly(all, ms, r);
      }
    }
  }

  // ---------------------------------------------------------------------
  // Patterns and file-system health
  // ---------------------------------------------------------------------

  datatype InsightSeverity = Info | Warning | Critical

  function InsightSeverityValue(s: InsightSeverity): string
  {
    match s
    case Info => "info"
    case Warning => "warning"
    case Critical => "critical"
  }

  datatype IOInsightKind =
    | ReadIntensive
    | WriteIntensive
    | HighReceive
    | HighSend
    | SpaceLow(mount: string)
    | SpaceWarning(mount: string)

  /** One `IOInsight` (titles, descriptions and actions are fixed texts per
      kind, with the mount point or rates filled in). */
  datatype IOInsight = IOInsight(kind: IOInsightKind, severity: InsightSeverity, confidence: real)

  /** `_analyze_disk_patterns`: read-intensive when reading is more than
      three times writing, else write-intensive for the reverse. */
  function DiskPatterns(ms: seq<IOSample>): (r: seq<IOInsight>)
    ensures |r| <= 1
    ensures ms == [] ==> r == []
    ensures ms != [] ==>
      var avgRead := Mean(DiskReads(ms)); var avgWrite := Mean(DiskWrites(ms));
      (r == [IOInsight(ReadIntensive, Info, 0.8)] <==> avgRead > avgWrite * 3.0) &&
      (r == [IOInsight(WriteIntensive, Warning, 0.8)] <==> !(avgRead > avgWrite * 3.0) && avgWrite > avgRead * 3.0) &&
      (r == [] <==> avgRead <= avgWrite * 3.0 && avgWrite <= avgRead * 3.0)
  {
    if ms == [] then []
    else
      var avgRead := Mean(DiskReads(ms));
      var avgWrite := Mean(DiskWrites(ms));
      if avgRead > avgWrite * 3.0 then [IOInsight(ReadIntensive, Info, 0.8)]
      else if avgWrite > avgRead * 3.0 then [IOInsight(WriteIntensive, Warning, 0.8)]
      else []
  }

  /** The severity of a high-traffic insight: info under 50 MB/s. */
  function TrafficSeverity(avg: real): InsightSeverity
  {
    if avg < 50.0 then Info else Warning
  }

  /** `_analyze_network_patterns`: receiving and sending above 20 MB/s. */
  function NetworkPatterns(ms: seq<IOSample>): (r: seq<IOInsight>)
    ensures |r| <= 2
    ensures ms == [] ==> r == []
    ensures ms != [] ==>
      var avgIn := Mean(NetworkIns(ms)); var avgOut := Mean(NetworkOuts(ms));
      (IOInsight(HighReceive, TrafficSeverity(avgIn), 0.9) in r <==> avgIn > 20.0) &&
      (IOInsight(HighSend, TrafficSeverity(avgOut), 0.9) in r <==> avgOut > 20.0)
  {
    if ms == [] then []
    else
      var avgIn := Mean(NetworkIns(ms));
      var avgOut := Mean(NetworkOuts(ms));
      (if avgIn > 20.0 then [IOInsight(HighReceive, TrafficSeverity(avgIn), 0.9)] else []) +
      (if avgOut > 20.0 then [IOInsight(HighSend, TrafficSeverity(avgOut), 0.9)] else [])
  }

  /** One partition as the system reports it; `usage` is None when reading
      its usage is refused or the mount point has gone. */
  datatype Partition = Partition(mount: string, fsType: string, usage: Option<Usage>)

  datatype Usage = Usage(total: int, used: int, free: int)

  /** One `FileSystemAnalysis`; the inode figures assume 4 KiB per file. */
  datatype FileSystem = FileSystem(
    mount: string,
    fsType: string,
    total: int,
    used: int,
    free: int,
    usagePercent: real,
    inodeTotal: int,
    inodeUsed: int,
    inodeUsagePercent: real)

  function FileSystemOf(p: Partition): FileSystem
    requires p.usage.Some? && p.usage.value.total != 0
  {
    var u := p.usage.value;
    var inodeTotal := FloorDiv(u.total, 4096);
    var inodeUsed := FloorDiv(u.used, 4096);
    FileSystem(p.mount, p.fsType, u.total, u.used, u.free, (u.used as real / u.total as real) * 100.0,
               inodeTotal, inodeUsed, if inodeTotal > 0 then (inodeUsed as real / inodeTotal as real) * 100.0 else 0.0)
  }

  /** `analyze_filesystem`: partitions whose usage cannot be read are
      skipped; a partition of total size 0 raises a division error that
      ends the scan, keeping what was gathered before it. */
  function FileSystems(parts: seq<Partition>): (r: seq<FileSystem>)
    ensures |r| <= |parts|
  {
    if parts == [] then []
    else
      var p := parts[0];
      if p.usage.None? then FileSystems(parts[1..])
      else if p.usage.value.total == 0 then []
      else [FileSystemOf(p)] + FileSystems(parts[1..])
  }

  /** Every listed file system comes from a readable partition of non-zero
      size, and when no readable partition has size 0 every readable
      partition is listed, in order. */
  lemma {:induction false} FileSystemsFacts(parts: seq<Partition>)
    ensures forall f :: f in FileSystems(parts) ==>
      exists i :: 0 <= i < |parts| && parts[i].usage.Some? && parts[i].usage.value.total != 0 && f == FileSystemOf(parts[i])
    ensures (forall i :: 0 <= i < |parts| && parts[i].usage.Some? ==> parts[i].usage.value.total != 0) ==>
      |FileSystems(parts)| == Count(parts, Readable)
  {
    if parts != [] {
      FileSystemsFacts(parts[1..]);
      assert forall i :: 1 <= i < |parts| ==> parts[1..][i - 1] == parts[i];
    }
  }

  function Readable(p: Partition): bool
  {
    p.usage.Some?
  }

  method AnalyzeFilesystem(parts: seq<Partition>) returns (r: seq<FileSystem>)
    ensures r == FileSystems(parts)
  {
    r := [];
    var k := 0;
    while k < |parts|
      invariant 0 <= k <= |parts|
      invariant r + FileSystems(parts[k..]) == FileSystems(parts)
    {
      assert parts[k..][1..] == parts[k + 1..];
      var p := parts[k];
      if p.usage.Some? {
        if p.usage.value.total == 0 {
          return;
        }
        r := r + [FileSystemOf(p)];
      }
      k := k + 1;
    }
  }

  /** The health insight of one file system: critical above 90% used,
      warning above 80%. */
  function HealthOf(f: FileSystem): (r: Option<IOInsight>)
    ensures r.Some? <==> f.usagePercent > 80.0
    ensures f.usagePercent > 90.0 ==> r == Some(IOInsight(SpaceLow(f.mount), Critical, 0.95))
    ensures 80.0 < f.usagePercent <= 90.0 ==> r == Some(IOInsight(SpaceWarning(f.mount), Warning, 0.9))
  {
    if f.usagePercent > 90.0 then Some(IOInsight(SpaceLow(f.mount), Critical, 0.95))
    else if f.usagePercent > 80.0 then Some(IOInsight(SpaceWarning(f.mount), Warning, 0.9))
    else None
  }

  /** `_analyze_filesystem_health`, as a specification. */
  function HealthInsights(fs: seq<FileSystem>): (r: seq<IOInsight>)
    ensures |r| <= |fs|
  {
    if fs == [] then []
    else HealthInsights(fs[..|fs| - 1]) + AsList(HealthOf(fs[|fs| - 1]))
  }

  /** One insight per file system above 80% used, critical exactly for
      those above 90%. */
  lemma {:induction false} HealthInsightsFacts(fs: seq<FileSystem>)
    ensures forall x :: x in HealthInsights(fs) <==> exists i :: 0 <= i < |fs| && HealthOf(fs[i]) == Some(x)
    ensures forall x :: x in HealthInsights(fs) ==> (x.severity == Critical <==> x.kind.SpaceLow?)
  {
    if fs != [] {
      var init := fs[..|fs| - 1];
      HealthInsightsFacts(init);
      assert forall i :: 0 <= i < |init| ==> init[i] == fs[i];
    }
  }

  method AnalyzeFilesystemHealth(parts: seq<Partition>) returns (insights: seq<IOInsight>)
    ensures insights == HealthInsights(FileSystems(parts))
  {
    var fs := AnalyzeFilesystem(parts);
    insights := [];
    for k := 0 to |fs|
      invariant insights == HealthInsights(fs[..k])
    {
      assert fs[..k + 1][..k] == fs[..k];
      var f := fs[k];
      if f.usagePercent > 90.0 {
        insights := insights + [IOInsight(SpaceLow(f.mount), Critical, 0.95)];
      } else if f.usagePercent > 80.0 {
        insights := insights + [IOInsight(SpaceWarning(f.mount), Warning, 0.9)];
      }
    }
    assert fs[..|fs|] == fs;
  }

  // ---------------------------------------------------------------------
  // The analyzer
  // ---------------------------------------------------------------------

  class IOAnalyzer {
    var ioHistory: seq<IOSample>
    var lastDiskIO: Option<seq<DiskStat>>
    var lastNetworkIO: Option<seq<NetStat>>
    var lastMeasurementTime: Option<real>

    function Snapshots(): RateState
      reads this
    {
      RateState(lastDiskIO, lastNetworkIO, lastMeasurementTime)
    }

    constructor()
      ensures ioHistory == [] && Snapshots() == RateState(None, None, None)
    {
      ioHistory := [];
      lastDiskIO := None;
      lastNetworkIO := None;
      lastMeasurementTime := None;
    }

    /** `_calculate_disk_rates` at time `t`. */
    method CalculateDiskRates(current: seq<DiskStat>, t: real) returns (read: real, write: real)
      modifies this
      ensures Step(read, write, Snapshots()) == DiskStep(old(Snapshots()), current, t)
      ensures ioHistory == old(ioHistory)
    {
      if lastDiskIO.None? || lastMeasurementTime.None? {
        lastDiskIO := Some(current);
        lastMeasurementTime := Some(t);
        return 0.0, 0.0;
      }
      var elapsed := t - lastMeasurementTime.value;
      if elapsed <= 0.0 {
        return 0.0, 0.0;
      }
      var d1, d2 := SumDeltas(DiskCounters(current), DiskCounters(lastDiskIO.value));
      read := (d1 as real / elapsed) / MiB;
      write := (d2 as real / elapsed) / MiB;
      lastDiskIO := Some(current);
      lastMeasurementTime := Some(t);
    }

    /** `_calculate_network_rates` at time `t`. */
    method CalculateNetworkRates(current: seq<NetStat>, t: real) returns (rateIn: real, rateOut: real)
      modifies this
      ensures Step(rateIn, rateOut, Snapshots()) == NetworkStep(old(Snapshots()), current, t)
      ensures ioHistory == old(ioHistory)
    {
      if lastNetworkIO.None? {
        lastNetworkIO := Some(current);
        return 0.0, 0.0;
      }
      var elapsed := if lastMeasurementTime.Some? && lastMeasurementTime.value != 0.0
        then t - lastMeasurementTime.value else 0.0;
      if elapsed <= 0.0 {
        return 0.0, 0.0;
      }
      var d1, d2 := SumDeltas(NetCounters(current), NetCounters(lastNetworkIO.value));
      rateIn := (d1 as real / elapsed) / MiB;
      rateOut := (d2 as real / elapsed) / MiB;
      lastNetworkIO := Some(current);
    }

    /** `collect_io_metrics` with the readings in hand: `now` is the sample
      time, `tDisk` and `tNet` the clock at the two rate calculations. The
      sample is appended and samples older than 24 hours are dropped. */
    method CollectIOMetrics(disk: seq<DiskStat>, net: seq<NetStat>, procs: seq<ProcessIO>, now: int, tDisk: real, tNet: real)
      returns (m: IOSample)
      modifies this
      ensures var d := DiskStep(old(Snapshots()), disk, tDisk); var n := NetworkStep(d.state, net, tNet);
        m == IOSample(now, disk, net, TopProcesses(procs), d.first, d.second, n.first, n.second) &&
        Snapshots() == n.state
      ensures ioHistory == Filter(old(ioHistory) + [m], SampleSince(now - HistoryHours * 3600))
    {
      var top := TopProcesses(procs);
      var read, write := CalculateDiskRates(disk, tDisk);
      var rateIn, rateOut := CalculateNetworkRates(net, tNet);
      m := IOSample(now, disk, net, top, read, write, rateIn, rateOut);
      ioHistory := ioHistory + [m];
      ioHistory := Filter(ioHistory, SampleSince(now - HistoryHours * 3600));
    }

    /** `_get_recent_metrics` */
    function RecentMetrics(hours: int, now: int): (r: seq<IOSample>)
      reads this
      ensures forall m :: m in r <==> m in ioHistory && m.timestamp >= now - hours * 3600
    {
      FilterMembers(ioHistory, SampleSince(now - hours * 3600));
      Filter(ioHistory, SampleSince(now - hours * 3600))
    }

    /** `analyze_io_bottlenecks` */
    function AnalyzeIOBottlenecks(hours: int, now: int): (r: seq<Bottleneck>)
      reads this
      ensures ioHistory == [] ==> r == []
      ensures r == AllBottlenecks(RecentMetrics(hours, now))
    {
      if ioHistory == [] then [] else AllBottlenecks(RecentMetrics(hours, now))
    }

    /** `generate_io_insights`, given the partitions the file-system scan
      would find. */
    method GenerateIOInsights(hours: int, now: int, parts: seq<Partition>) returns (r: seq<IOInsight>)
      ensures var recent := RecentMetrics(hours, now);
        r == (if recent == [] then []
              else DiskPatterns(recent) + NetworkPatterns(recent) + HealthInsights(FileSystems(parts)))
    {
      var recent := RecentMetrics(hours, now);
      if recent == [] {
        return [];
      }
      var health := AnalyzeFilesystemHealth(parts);
      r := DiskPatterns(recent) + NetworkPatterns(recent) + health;
    }
  }

  /** After collecting, every sample in the history is at most 24 hours
      old and the new sample is the last one. */
  lemma HistoryRetention(history: seq<IOSample>, m: IOSample, now: int)
    requires m.timestamp == now
    ensures var h := Filter(history + [m], SampleSince(now - HistoryHours * 3600));
      h != [] && h[|h| - 1] == m &&
      (forall x :: x in h <==> (x in history && x.timestamp >= now - HistoryHours * 3600) || x == m)
  {
    FilterSnoc(history, m, SampleSince(now - HistoryHours * 3600));
    FilterMembers(history + [m], SampleSince(now - HistoryHours * 3600));
  }
}
