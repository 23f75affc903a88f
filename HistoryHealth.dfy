/**
 * The history manager's health score: one score per component, each
 * 100 minus its load and never below 0, and their weighted average.
 */
module HistoryHealth {
  import opened Common

  type Record = map<string, real>

  /** `d.get(name, default)` */
  function GetOr(d: Record, name: string, default: real): real
  {
    if name in d then d[name] else default
  }

  /** A usage score: 100 minus the percentage, never below 0. */
  function UsageScore(percent: real): (s: real)
    ensures s >= 0.0
    ensures percent >= 0.0 ==> s <= 100.0
    ensures percent <= 100.0 ==> s == 100.0 - percent
    ensures percent >= 100.0 ==> s == 0.0
  {
    MaxR(0.0, 100.0 - percent)
  }

  /** The scores before rounding; `process` is 100 minus the percentage of
      zombie processes. */
  datatype HealthScore = HealthScore(overall: real, cpu: real, memory: real, disk: real, process: real)

  const CpuWeight: real := 0.3
  const MemoryWeight: real := 0.3
  const DiskWeight: real := 0.2
  const ProcessWeight: real := 0.2

  /** `_calculate_health_score`; a reported total of zero processes divides
      by zero and gives no score. */
  function HealthScoreOf(system: Record, processes: Record): (r: Option<HealthScore>)
    ensures r.None? <==> GetOr(processes, "total_processes", 1.0) == 0.0
    ensures r.Some? ==>
      r.value.cpu == UsageScore(GetOr(system, "cpu_percent", 0.0)) &&
      r.value.memory == UsageScore(GetOr(system, "memory_percent", 0.0)) &&
      r.value.disk == UsageScore(GetOr(system, "disk_percent", 0.0)) &&
      r.value.process == UsageScore(GetOr(processes, "zombie_processes", 0.0) / GetOr(processes, "total_processes", 1.0) * 100.0) &&
      r.value.overall == r.value.cpu * CpuWeight + r.value.memory * MemoryWeight + r.value.disk * DiskWeight + r.value.process * ProcessWeight
  {
    var total := GetOr(processes, "total_processes", 1.0);
    if total == 0.0 then None
    else
      var cpu := UsageScore(GetOr(system, "cpu_percent", 0.0));
      var memory := UsageScore(GetOr(system, "memory_percent", 0.0));
      var disk := UsageScore(GetOr(system, "disk_percent", 0.0));
      var process := UsageScore(GetOr(processes, "zombie_processes", 0.0) / total * 100.0);
      Some(HealthScore(cpu * CpuWeight + memory * MemoryWeight + disk * DiskWeight + process * ProcessWeight, cpu, memory, disk, process))
  }

  /** The weights add up to 1, so the overall score lies between the lowest
      and the highest component score, and in [0, 100] when the percentages
      are not negative and there are no more zombies than processes. */
  lemma OverallBetweenComponents(system: Record, processes: Record)
    requires GetOr(processes, "total_processes", 1.0) != 0.0
    ensures var h := HealthScoreOf(system, processes).value;
      var lo := MinR(MinR(h.cpu, h.memory), MinR(h.disk, h.process));
      var hi := MaxR(MaxR(h.cpu, h.memory), MaxR(h.disk, h.process));
      lo <= h.overall <= hi
    ensures var h := HealthScoreOf(system, processes).value;
      GetOr(system, "cpu_percent", 0.0) >= 0.0 && GetOr(system, "memory_percent", 0.0) >= 0.0 &&
      GetOr(system, "disk_percent", 0.0) >= 0.0 &&
      GetOr(processes, "zombie_processes", 0.0) >= 0.0 && GetOr(processes, "total_processes", 1.0) > 0.0 ==>
      0.0 <= h.overall <= 100.0
  {
    var h := HealthScoreOf(system, processes).value;
    var z := GetOr(processes, "zombie_processes", 0.0);
    var t := GetOr(processes, "total_processes", 1.0);
    if z >= 0.0 && t > 0.0 {
      assert z / t >= 0.0;
    }
  }

  /** Missing figures count as an idle system: no load and one process
      without zombies scores 100 everywhere. */
  lemma MissingFiguresScoreFull()
    ensures HealthScoreOf(map[], map[]) == Some(HealthScore(100.0, 100.0, 100.0, 100.0, 100.0))
  {
  }

  /** Without zombie processes the process score is 100. */
  lemma NoZombiesFullProcessScore(system: Record, processes: Record)
    requires GetOr(processes, "zombie_processes", 0.0) == 0.0 && GetOr(processes, "total_processes", 1.0) != 0.0
    ensures HealthScoreOf(system, processes).value.process == 100.0
  {
  }

  /** More load on a component never raises the overall score. */
  lemma OverallMonotoneInCpu(system: Record, processes: Record, more: real)
    requires GetOr(processes, "total_processes", 1.0) != 0.0
    requires more >= GetOr(system, "cpu_percent", 0.0)
    ensures HealthScoreOf(system["cpu_percent" := more], processes).value.overall <=
      HealthScoreOf(system, processes).value.overall
  {
    var s2 := system["cpu_percent" := more];
    assert GetOr(s2, "memory_percent", 0.0) == GetOr(system, "memory_percent", 0.0);
    assert GetOr(s2, "disk_percent", 0.0) == GetOr(system, "disk_percent", 0.0);
  }
}
