/**
 * The recommendation rules of the VS Code memory diagnostic: a fixed list
 * of thresholds over the report the diagnostic has gathered, turned into
 * a list of recommendations. The report's readings (memory percentage,
 * VS Code process summary and records) are inputs here; how psutil
 * gathers them is not part of this model.
 */
module Diagnostic {
  import opened Common
  import opened HttpQuery

  /** One VS Code process as the report records it. */
  datatype ProcessRecord = ProcessRecord(pid: int, name: string, memoryMb: real, runtimeHours: real)

  /** The report's readings; `None` is a key the report lacks, which the
      rules read as 0. */
  datatype Report = Report(memoryPercent: Option<real>, totalMemoryMb: Option<real>, processCount: Option<int>,
                           processes: seq<ProcessRecord>)

  datatype Level = Critical | Warning | Info

  /** What a recommendation is about; `IssueText` gives the text the
      report shows. */
  datatype Issue =
    | MemoryHigh | MemoryElevated | VsCodeMemory | VsCodeProcesses
    | ProcessMemory(name: string, pid: int)
    | SystemTuning | SettingsTuning | Monitoring

  /** The reading a recommendation quotes, before it is formatted; the
      three fixed items quote none. */
  datatype Current = Percent(p: real) | Megabytes(mb: real) | Processes(n: int) | NoCurrent

  /** The advice; the advice to restart a process quotes its running
      time, before it is formatted. */
  datatype Advice = Advice(text: string) | RestartProcess(runtimeHours: real)

  datatype Recommendation = Recommendation(level: Level, issue: Issue, current: Current, advice: Advice)

  function IssueText(i: Issue): string
  {
    match i
    case MemoryHigh => "系統記憶體使用率過高"
    case MemoryElevated => "系統記憶體使用率偏高"
    case VsCodeMemory => "VS Code 進程記憶體使用過高"
    case VsCodeProcesses => "VS Code 進程數量較多"
    case ProcessMemory(name, pid) => "進程 " + name + " (PID: " + IntText(pid) + ") 記憶體使用過高"
    case SystemTuning => "系統配置優化"
    case SettingsTuning => "VS Code 設置優化"
    case Monitoring => "定期監控"
  }

  function OrZero(v: Option<real>): real
  {
    if v.Some? then v.value else 0.0
  }

  // ---------------------------------------------------------------------
  // The rules
  // ---------------------------------------------------------------------

  /** Memory above 80 % is critical, above 60 % a warning. */
  function MemoryItems(percent: real): seq<Recommendation>
  {
    if percent > 80.0 then [Recommendation(Critical, MemoryHigh, Percent(percent), Advice("立即清理記憶體或重啟部分服務"))]
    else if percent > 60.0 then [Recommendation(Warning, MemoryElevated, Percent(percent), Advice("監控記憶體使用並考慮優化"))]
    else []
  }

  /** More than 2048 MB over all VS Code processes is a warning. */
  function TotalItems(total: real): seq<Recommendation>
  {
    if total > 2048.0 then [Recommendation(Warning, VsCodeMemory, Megabytes(total), Advice("重啟 VS Code Server 或清理進程"))]
    else []
  }

  /** More than 20 VS Code processes is worth knowing. */
  function CountItems(count: int): seq<Recommendation>
  {
    if count > 20 then [Recommendation(Info, VsCodeProcesses, Processes(count), Advice("檢查是否有重複或殭屍進程"))]
    else []
  }

  /** A process over 1024 MB is a warning. */
  function ProcessItem(p: ProcessRecord): seq<Recommendation>
  {
    if p.memoryMb > 1024.0 then [Recommendation(Warning, ProcessMemory(p.name, p.pid), Megabytes(p.memoryMb), RestartProcess(p.runtimeHours))]
    else []
  }

  /** The warnings for a run of processes, in their order. */
  function ProcessItems(ps: seq<ProcessRecord>): seq<Recommendation>
  {
    if ps == [] then [] else ProcessItems(ps[..|ps| - 1]) + ProcessItem(ps[|ps| - 1])
  }

  /** The three items offered whenever nothing generated says a setting is
      already in place. */
  const TuningItems: seq<Recommendation> := [
    Recommendation(Info, SystemTuning, NoCurrent, Advice("執行 /home/bao/mcp_use/scripts/optimize_vscode_ssh.sh 進行系統優化")),
    Recommendation(Info, SettingsTuning, NoCurrent, Advice("應用 /home/bao/mcp_use/config/vscode-memory-optimized-settings.json 中的設置")),
    Recommendation(Info, Monitoring, NoCurrent, Advice("啟用記憶體監控服務: sudo systemctl enable vscode-memory-monitor"))]

  /** Only the first five processes are examined. */
  const ExaminedProcesses := 5

  /** Some item's issue says a setting is already in place. */
  predicate AnyConfigured(recs: seq<Recommendation>)
  {
    exists i :: 0 <= i < |recs| && StartsWith(IssueText(recs[i].issue), "已配置")
  }

  /** What the rules give before the fixed items. */
  function Generated(r: Report): seq<Recommendation>
  {
    MemoryItems(OrZero(r.memoryPercent)) + TotalItems(OrZero(r.totalMemoryMb)) +
    CountItems(if r.processCount.Some? then r.processCount.value else 0) +
    ProcessItems(Take(r.processes, ExaminedProcesses))
  }

  /** `generate_recommendations` */
  function Recommendations(r: Report): seq<Recommendation>
  {
    var gen := Generated(r);
    if AnyConfigured(gen) then gen else gen + TuningItems
  }

  // ---------------------------------------------------------------------
  // What the rules promise
  // ---------------------------------------------------------------------

  /** How many items are about the issue. */
  function IssueCount(recs: seq<Recommendation>, i: Issue): nat
  {
    if recs == [] then 0 else IssueCount(recs[..|recs| - 1], i) + (if recs[|recs| - 1].issue == i then 1 else 0)
  }

  lemma {:induction false} IssueCountAppend(a: seq<Recommendation>, b: seq<Recommendation>, i: Issue)
    ensures IssueCount(a + b, i) == IssueCount(a, i) + IssueCount(b, i)
  {
    if b == [] {
      assert a + b == a;
    } else {
      assert (a + b)[..|a + b| - 1] == a + b[..|b| - 1];
      IssueCountAppend(a, b[..|b| - 1], i);
    }
  }

  /** No generated issue says a setting is in place: every one of them
      starts with another character. */
  lemma IssueTextStart(i: Issue)
    ensures |IssueText(i)| > 0 && IssueText(i)[0] != '已'
  {
    match i
    case ProcessMemory(name, pid) =>
      assert IssueText(i)[0] == '進';
    case _ =>
  }

  lemma {:induction false} NothingConfigured(recs: seq<Recommendation>)
    ensures !AnyConfigured(recs)
  {
    forall k | 0 <= k < |recs| ensures !StartsWith(IssueText(recs[k].issue), "已配置") {
      IssueTextStart(recs[k].issue);
      assert "已配置"[0] == '已';
    }
  }

  /** The three fixed items always come last, after what the rules
      generated. */
  lemma TuningItemsLast(r: Report)
    ensures Recommendations(r) == Generated(r) + TuningItems
    ensures Recommendations(r)[|Recommendations(r)| - 3..] == TuningItems
  {
    NothingConfigured(Generated(r));
  }

  /** An issue's count over the whole list, part by part. */
  lemma CountByPart(r: Report, i: Issue)
    ensures IssueCount(Recommendations(r), i) ==
      IssueCount(MemoryItems(OrZero(r.memoryPercent)), i) + IssueCount(TotalItems(OrZero(r.totalMemoryMb)), i) +
      IssueCount(CountItems(if r.processCount.Some? then r.processCount.value else 0), i) +
      IssueCount(ProcessItems(Take(r.processes, ExaminedProcesses)), i) + IssueCount(TuningItems, i)
  {
    var a := MemoryItems(OrZero(r.memoryPercent));
    var b := TotalItems(OrZero(r.totalMemoryMb));
    var c := CountItems(if r.processCount.Some? then r.processCount.value else 0);
    var d := ProcessItems(Take(r.processes, ExaminedProcesses));
    TuningItemsLast(r);
    IssueCountAppend(a, b, i);
    IssueCountAppend(a + b, c, i);
    IssueCountAppend(a + b + c, d, i);
    IssueCountAppend(a + b + c + d, TuningItems, i);
  }

  /** A list of at most one item counts that item's issue once. */
  lemma CountOfOne(recs: seq<Recommendation>, i: Issue)
    requires |recs| <= 1
    ensures IssueCount(recs, i) == (if recs != [] && recs[0].issue == i then 1 else 0)
  {
    if recs != [] {
      assert recs[..0] == [];
    }
  }

  /** The fixed items are about tuning and monitoring only. */
  lemma TuningCount(i: Issue)
    requires i != SystemTuning && i != SettingsTuning && i != Monitoring
    ensures IssueCount(TuningItems, i) == 0
  {
    var t := TuningItems;
    assert t == [t[0]] + [t[1]] + [t[2]];
    IssueCountAppend([t[0]] + [t[1]], [t[2]], i);
    IssueCountAppend([t[0]], [t[1]], i);
    CountOfOne([t[0]], i);
    CountOfOne([t[1]], i);
    CountOfOne([t[2]], i);
  }

  /** Memory above 80 % gives one critical item and 60 % to 80 % one
      warning, never both, and nothing else is critical. */
  lemma MemoryRule(r: Report)
    ensures var recs := Recommendations(r);
      var p := OrZero(r.memoryPercent);
      IssueCount(recs, MemoryHigh) == (if p > 80.0 then 1 else 0) &&
      IssueCount(recs, MemoryElevated) == (if 60.0 < p <= 80.0 then 1 else 0)
    ensures CriticalOnlyMemory(Recommendations(r))
  {
    PartCounts(r, MemoryHigh);
    PartCounts(r, MemoryElevated);
    OnlyMemoryCritical(r);
  }

  /** Over 2048 MB in all gives one warning and over 20 processes one info
      item. */
  lemma SummaryRule(r: Report)
    ensures var recs := Recommendations(r);
      var count := if r.processCount.Some? then r.processCount.value else 0;
      IssueCount(recs, VsCodeMemory) == (if OrZero(r.totalMemoryMb) > 2048.0 then 1 else 0) &&
      IssueCount(recs, VsCodeProcesses) == (if count > 20 then 1 else 0)
  {
    PartCounts(r, VsCodeMemory);
    PartCounts(r, VsCodeProcesses);
  }

  /** The count of a rule's issue is what its own part gives. */
  lemma PartCounts(r: Report, i: Issue)
    requires i == MemoryHigh || i == MemoryElevated || i == VsCodeMemory || i == VsCodeProcesses
    ensures var count := if r.processCount.Some? then r.processCount.value else 0;
      IssueCount(Recommendations(r), i) ==
      IssueCount(MemoryItems(OrZero(r.memoryPercent)), i) + IssueCount(TotalItems(OrZero(r.totalMemoryMb)), i) +
      IssueCount(CountItems(count), i)
    ensures IssueCount(MemoryItems(OrZero(r.memoryPercent)), i) ==
      (if i == MemoryHigh && OrZero(r.memoryPercent) > 80.0 then 1
       else if i == MemoryElevated && 60.0 < OrZero(r.memoryPercent) <= 80.0 then 1 else 0)
    ensures IssueCount(TotalItems(OrZero(r.totalMemoryMb)), i) ==
      (if i == VsCodeMemory && OrZero(r.totalMemoryMb) > 2048.0 then 1 else 0)
    ensures var count := if r.processCount.Some? then r.processCount.value else 0;
      IssueCount(CountItems(count), i) == (if i == VsCodeProcesses && count > 20 then 1 else 0)
  {
    var count := if r.processCount.Some? then r.processCount.value else 0;
    CountByPart(r, i);
    NoOtherIssues(Take(r.processes, ExaminedProcesses), i);
    TuningCount(i);
    CountOfOne(MemoryItems(OrZero(r.memoryPercent)), i);
    CountOfOne(TotalItems(OrZero(r.totalMemoryMb)), i);
    CountOfOne(CountItems(count), i);
  }

  /** Process warnings are about processes only. */
  lemma {:induction false} NoOtherIssues(ps: seq<ProcessRecord>, i: Issue)
    requires !i.ProcessMemory?
    ensures IssueCount(ProcessItems(ps), i) == 0
  {
    if ps != [] {
      NoOtherIssues(ps[..|ps| - 1], i);
      IssueCountAppend(ProcessItems(ps[..|ps| - 1]), ProcessItem(ps[|ps| - 1]), i);
      CountOfOne(ProcessItem(ps[|ps| - 1]), i);
    }
  }

  /** Every critical item of the list is about memory being too high. */
  predicate CriticalOnlyMemory(recs: seq<Recommendation>)
  {
    forall k :: 0 <= k < |recs| && recs[k].level == Critical ==> recs[k].issue == MemoryHigh
  }

  lemma CriticalOnlyMemoryAppend(a: seq<Recommendation>, b: seq<Recommendation>)
    requires CriticalOnlyMemory(a) && CriticalOnlyMemory(b)
    ensures CriticalOnlyMemory(a + b)
  {
    forall k | 0 <= k < |a + b| && (a + b)[k].level == Critical ensures (a + b)[k].issue == MemoryHigh {
      if k >= |a| {
        assert (a + b)[k] == b[k - |a|];
      }
    }
  }

  /** Only the memory rule gives a critical item. */
  lemma OnlyMemoryCritical(r: Report)
    ensures CriticalOnlyMemory(Recommendations(r))
  {
    var a := MemoryItems(OrZero(r.memoryPercent));
    var b := TotalItems(OrZero(r.totalMemoryMb));
    var c := CountItems(if r.processCount.Some? then r.processCount.value else 0);
    var ps := Take(r.processes, ExaminedProcesses);
    var d := ProcessItems(ps);
    TuningItemsLast(r);
    forall k | 0 <= k < |d| ensures d[k].level == Warning {
      ProcessItemsWarn(ps, k);
    }
    assert CriticalOnlyMemory(TuningItems);
    CriticalOnlyMemoryAppend(a, b);
    CriticalOnlyMemoryAppend(a + b, c);
    CriticalOnlyMemoryAppend(a + b + c, d);
    CriticalOnlyMemoryAppend(a + b + c + d, TuningItems);
  }

  /** Examining one process more appends its warning, if any. */
  lemma ProcessItemsStep(ps: seq<ProcessRecord>, i: nat)
    requires i < |ps|
    ensures ProcessItems(ps[..i + 1]) == ProcessItems(ps[..i]) + ProcessItem(ps[i])
  {
    assert ps[..i + 1][..i] == ps[..i];
  }

  /** Every process item is a warning. */
  lemma {:induction false} ProcessItemsWarn(ps: seq<ProcessRecord>, k: int)
    requires 0 <= k < |ProcessItems(ps)|
    ensures ProcessItems(ps)[k].level == Warning && ProcessItems(ps)[k].issue.ProcessMemory?
  {
    var init := ProcessItems(ps[..|ps| - 1]);
    if k < |init| {
      ProcessItemsWarn(ps[..|ps| - 1], k);
    }
  }

  /** A process warning is given for exactly the processes over
      1024 MB. */
  lemma {:induction false} ProcessItemsExact(ps: seq<ProcessRecord>, rec: Recommendation)
    ensures rec in ProcessItems(ps) <==>
      exists k :: 0 <= k < |ps| && ps[k].memoryMb > 1024.0 && rec == ProcessItem(ps[k])[0]
  {
    if ps != [] {
      var init := ps[..|ps| - 1];
      ProcessItemsExact(init, rec);
      if rec in ProcessItems(ps) && rec !in ProcessItems(init) {
        var k := |ps| - 1;
        assert ps[k].memoryMb > 1024.0 && rec == ProcessItem(ps[k])[0];
      }
      if exists k :: 0 <= k < |ps| && ps[k].memoryMb > 1024.0 && rec == ProcessItem(ps[k])[0] {
        var k :| 0 <= k < |ps| && ps[k].memoryMb > 1024.0 && rec == ProcessItem(ps[k])[0];
        if k < |init| {
          assert init[k] == ps[k];
        }
      }
    }
  }

  /** The process warnings in the recommendations are exactly those of
      the first five processes over 1024 MB. */
  lemma ProcessRule(r: Report, rec: Recommendation)
    ensures var first := Take(r.processes, ExaminedProcesses);
      (rec.issue.ProcessMemory? && rec in Recommendations(r)) <==>
        exists k :: 0 <= k < |first| && first[k].memoryMb > 1024.0 && rec == ProcessItem(first[k])[0]
  {
    var first := Take(r.processes, ExaminedProcesses);
    var a := MemoryItems(OrZero(r.memoryPercent));
    var b := TotalItems(OrZero(r.totalMemoryMb));
    var c := CountItems(if r.processCount.Some? then r.processCount.value else 0);
    var d := ProcessItems(first);
    TuningItemsLast(r);
    ProcessItemsExact(first, rec);
    assert Recommendations(r) == a + b + c + d + TuningItems;
    if rec.issue.ProcessMemory? {
      assert rec in Recommendations(r) <==> rec in d;
    }
  }

  /** How many of the processes are over 1024 MB. */
  function HeavyCount(ps: seq<ProcessRecord>): nat
  {
    if ps == [] then 0 else HeavyCount(ps[..|ps| - 1]) + (if ps[|ps| - 1].memoryMb > 1024.0 then 1 else 0)
  }

  /** One warning per process over 1024 MB, so no more than processes. */
  lemma {:induction false} ProcessItemsCount(ps: seq<ProcessRecord>)
    ensures |ProcessItems(ps)| == HeavyCount(ps) <= |ps|
  {
    if ps != [] {
      ProcessItemsCount(ps[..|ps| - 1]);
    }
  }

  /** At most five process warnings, one per examined process over
      1024 MB. */
  lemma ProcessWarningsBound(r: Report)
    ensures |ProcessItems(Take(r.processes, ExaminedProcesses))| == HeavyCount(Take(r.processes, ExaminedProcesses))
    ensures |ProcessItems(Take(r.processes, ExaminedProcesses))| <= ExaminedProcesses
  {
    ProcessItemsCount(Take(r.processes, ExaminedProcesses));
  }

  /** The loop over the examined processes: a warning for each one over
      1024 MB, appended in their order. */
  method AppendProcessWarnings(recs: seq<Recommendation>, ps: seq<ProcessRecord>) returns (out: seq<Recommendation>)
    ensures out == recs + ProcessItems(ps)
  {
    out := recs;
    for i := 0 to |ps|
      invariant out == recs + ProcessItems(ps[..i])
    {
      var p := ps[i];
      ProcessItemsStep(ps, i);
      if p.memoryMb > 1024.0 {
        out := out + [Recommendation(Warning, ProcessMemory(p.name, p.pid), Megabytes(p.memoryMb), RestartProcess(p.runtimeHours))];
      }
    }
    assert ps[..|ps|] == ps;
  }

  // ---------------------------------------------------------------------
  // The diagnostic object
  // ---------------------------------------------------------------------

  class MemoryDiagnostic {
    var report: Report
    /** `self.report['recommendations']` */
    var recommendations: seq<Recommendation>

    constructor (r: Report)
      ensures report == r && recommendations == []
    {
      report := r;
      recommendations := [];
    }

    /** `generate_recommendations`: appends the rules' items one by one,
        then the fixed items unless one says a setting is in place. */
    method GenerateRecommendations()
      modifies this
      ensures report == old(report)
      ensures recommendations == Recommendations(report)
    {
      var recs: seq<Recommendation> := [];
      var percent := if report.memoryPercent.Some? then report.memoryPercent.value else 0.0;
      if percent > 80.0 {
        recs := recs + [Recommendation(Critical, MemoryHigh, Percent(percent), Advice("立即清理記憶體或重啟部分服務"))];
      } else if percent > 60.0 {
        recs := recs + [Recommendation(Warning, MemoryElevated, Percent(percent), Advice("監控記憶體使用並考慮優化"))];
      }
      var total := if report.totalMemoryMb.Some? then report.totalMemoryMb.value else 0.0;
      if total > 2048.0 {
        recs := recs + [Recommendation(Warning, VsCodeMemory, Megabytes(total), Advice("重啟 VS Code Server 或清理進程"))];
      }
      var count := if report.processCount.Some? then report.processCount.value else 0;
      if count > 20 {
        recs := recs + [Recommendation(Info, VsCodeProcesses, Processes(count), Advice("檢查是否有重複或殭屍進程"))];
      }
      assert recs == MemoryItems(percent) + TotalItems(total) + CountItems(count);
      recs := AppendProcessWarnings(recs, Take(report.processes, ExaminedProcesses));
      if !AnyConfigured(recs) {
        recs := recs + TuningItems;
      }
      recommendations := recs;
    }
  }
}
