/**
 * The service controller's two-level threshold alerter. Per metric it keeps
 * a warning and a critical threshold in a flat table (`cpu_warning`,
 * `cpu_critical`, ...); a check raises, re-raises at another severity or
 * clears the metric's one active alert (`cpu_alert`, ...), and every raise
 * appends a copy of the alert to an append-only history.
 *
 * The alert descriptions (formatted numbers) and the call into the history
 * manager are not modelled; alert titles are kept.
 */
module ServiceController {
  import opened Common
  import Thresholds

  datatype Severity = Warning | Critical

  datatype Alert = Alert(
    timestamp: int,
    severity: Severity,
    title: string,
    metricValue: real,
    thresholdValue: real,
    isActive: bool)

  /** The flat threshold table the controller starts with. */
  function DefaultTable(): map<string, real>
  {
    map["cpu_warning" := 70.0, "cpu_critical" := 85.0,
        "memory_warning" := 80.0, "memory_critical" := 90.0,
        "disk_warning" := 85.0, "disk_critical" := 95.0,
        "load_warning" := 2.0, "load_critical" := 4.0]
  }

  /** The controller's defaults are the threshold route's defaults. */
  lemma DefaultTableAgreesWithRoute()
    ensures var d := Thresholds.DefaultThresholds();
      DefaultTable() == map["cpu_warning" := d.cpu.warning, "cpu_critical" := d.cpu.critical,
                            "memory_warning" := d.memory.warning, "memory_critical" := d.memory.critical,
                            "disk_warning" := d.disk.warning, "disk_critical" := d.disk.critical,
                            "load_warning" := d.load.warning, "load_critical" := d.load.critical]
  {
  }

  /** `alert_thresholds.get(key, 999)` */
  function Lookup(table: map<string, real>, key: string): real
  {
    if key in table then table[key] else 999.0
  }

  function AlertKey(metric: string): string { metric + "_alert" }

  /** The severity a value deserves: critical at or above the critical
      threshold, else warning at or above the warning threshold, else none. */
  function Classify(value: real, warning: real, critical: real): (r: Option<Severity>)
    ensures value >= critical <==> r == Some(Critical)
    ensures r == Some(Warning) <==> warning <= value < critical
    ensures r.None? <==> value < warning && value < critical
  {
    if value >= critical then Some(Critical) else if value >= warning then Some(Warning) else None
  }

  /** The controller's alert state as one value: the active alerts, the
      order in which their keys were inserted, and the history. */
  datatype AlertState = AlertState(active: map<string, Alert>, order: seq<string>, history: seq<Alert>)

  /** The insertion order lists every active key exactly once, and every
      alert in the active table is marked active. */
  predicate AlertStateValid(s: AlertState)
  {
    (forall k :: k in s.active ==> s.active[k].isActive) &&
    (forall k :: k in s.active ==> k in s.order) &&
    (forall i :: 0 <= i < |s.order| ==> s.order[i] in s.active) &&
    Distinct(s.order)
  }

  /** `order` without `k`, the others keeping their order. */
  function Remove(order: seq<string>, k: string): (r: seq<string>)
    ensures forall x :: x in r <==> x in order && x != k
    ensures forall i :: 0 <= i < |r| ==> r[i] in order && r[i] != k
  {
    if order == [] then []
    else (if order[0] == k then [] else [order[0]]) + Remove(order[1..], k)
  }

  lemma {:induction false} RemoveDistinct(order: seq<string>, k: string)
    requires Distinct(order)
    ensures Distinct(Remove(order, k))
  {
    if order != [] {
      var tail := order[1..];
      assert Distinct(tail) by {
        forall i, j | 0 <= i < j < |tail| ensures tail[i] != tail[j] {
          assert tail[i] == order[i + 1] && tail[j] == order[j + 1];
        }
      }
      RemoveDistinct(tail, k);
      assert order[0] !in tail by {
        forall j | 0 <= j < |tail| ensures tail[j] != order[0] {
          assert tail[j] == order[j + 1];
        }
      }
      var rest := Remove(tail, k);
      var r := Remove(order, k);
      if order[0] != k {
        forall i, j | 0 <= i < j < |r| ensures r[i] != r[j] {
          if i == 0 {
            assert r[j] == rest[j - 1] && r[j] in rest;
          } else {
            assert r[i] == rest[i - 1] && r[j] == rest[j - 1];
          }
        }
      }
    }
  }

  /** `_trigger_alert`: the new alert replaces the key's entry (keeping its
      place in the insertion order) and a copy is appended to the history. */
  function Triggered(s: AlertState, key: string, a: Alert): AlertState
  {
    AlertState(s.active[key := a], if key in s.active then s.order else s.order + [key], s.history + [a])
  }

  /** `_clear_alert`: the key's entry goes; the history is untouched. */
  function Cleared(s: AlertState, key: string): AlertState
  {
    if key in s.active then AlertState(s.active - {key}, Remove(s.order, key), s.history) else s
  }

  function NewAlert(sev: Severity, name: string, value: real, threshold: real, now: int): Alert
  {
    Alert(now, sev, if sev == Critical then name + "嚴重警告" else name + "警告", value, threshold, true)
  }

  /** `_check_threshold_alert` */
  function Checked(table: map<string, real>, s: AlertState, metric: string, value: real, name: string,
                   now: int): AlertState
  {
    var warning := Lookup(table, metric + "_warning");
    var critical := Lookup(table, metric + "_critical");
    var key := AlertKey(metric);
    var sev := Classify(value, warning, critical);
    if sev.None? then Cleared(s, key)
    else if key in s.active && s.active[key].severity == sev.value then s
    else Triggered(s, key, NewAlert(sev.value, name, value, if sev.value == Critical then critical else warning, now))
  }

  /** After a check the metric's active alert has exactly the severity the
      value deserves (none below the warning threshold); other metrics'
      alerts are untouched; the history either stays as it was or gains
      exactly the new active alert, and it gains one exactly when the
      severity changed. */
  lemma CheckedFacts(table: map<string, real>, s: AlertState, metric: string, value: real, name: string, now: int)
    requires AlertStateValid(s)
    ensures var t := Checked(table, s, metric, value, name, now);
      var key := AlertKey(metric);
      var sev := Classify(value, Lookup(table, metric + "_warning"), Lookup(table, metric + "_critical"));
      AlertStateValid(t) &&
      (key in t.active <==> sev.Some?) &&
      (key in t.active ==> t.active[key].severity == sev.value && t.active[key].isActive) &&
      (forall k :: k != key ==> (k in t.active <==> k in s.active) && (k in s.active ==> t.active[k] == s.active[k])) &&
      (t.history == s.history || t.history == s.history + [t.active[key]]) &&
      (t.history != s.history <==> sev.Some? && !(key in s.active && s.active[key].severity == sev.value)) &&
      (sev.None? ==> t.history == s.history)
  {
    var key := AlertKey(metric);
    if key in s.active { RemoveDistinct(s.order, key); }
  }

  /** A value at or above the critical threshold leaves a critical alert; a
      drop into the warning band re-raises the alert as a warning. */
  lemma CriticalThenWarning(table: map<string, real>, s: AlertState, metric: string, v1: real, v2: real,
                            name: string, t1: int, t2: int)
    requires AlertStateValid(s)
    requires v1 >= Lookup(table, metric + "_critical")
    requires Lookup(table, metric + "_warning") <= v2 < Lookup(table, metric + "_critical")
    ensures var a := Checked(table, s, metric, v1, name, t1);
      var b := Checked(table, a, metric, v2, name, t2);
      a.active[AlertKey(metric)].severity == Critical &&
      b.active[AlertKey(metric)].severity == Warning &&
      b.history == a.history + [b.active[AlertKey(metric)]]
  {
    CheckedFacts(table, s, metric, v1, name, t1);
  }

  /** Checking again a value of the same severity changes nothing, at any
      later time: re-checks append no history. */
  lemma RecheckIsIdempotent(table: map<string, real>, s: AlertState, metric: string, v1: real, v2: real,
                            name: string, t1: int, t2: int)
    requires AlertStateValid(s)
    requires Classify(v1, Lookup(table, metric + "_warning"), Lookup(table, metric + "_critical")) ==
             Classify(v2, Lookup(table, metric + "_warning"), Lookup(table, metric + "_critical"))
    ensures var a := Checked(table, s, metric, v1, name, t1);
      Checked(table, a, metric, v2, name, t2) == a
  {
    CheckedFacts(table, s, metric, v1, name, t1);
  }

  /** The `load_avg` entry of the system summary: absent, a list of load
      figures, or another value. The summary of the system monitor gives it
      as formatted text (`"0.52, 0.58, 0.59"`). */
  datatype LoadAvg = LoadMissing | LoadList(values: seq<real>) | LoadText(text: string)

  /** The figure `_check_system_alerts` checks against the load thresholds,
      or `None` when it compares no load figure: an absent entry reads as
      `[0, 0, 0]`, an empty list or text is false and skipped, a list gives
      its first figure and any other value 0. */
  function LoadChecked(l: LoadAvg): Option<real>
  {
    match l
    case LoadMissing => Some(0.0)
    case LoadList(v) => if v == [] then None else Some(v[0])
    case LoadText(t) => if t == [] then None else Some(0.0)
  }

  /** The cpu, memory and disk checks of one snapshot, absent figures
      reading as 0. */
  function UsageChecked(table: map<string, real>, s: AlertState, cpu: Option<real>, memory: Option<real>,
                        disk: Option<real>, now: int): AlertState
  {
    var s1 := Checked(table, s, "cpu", Pick(cpu, 0.0), "CPU 使用率", now);
    var s2 := Checked(table, s1, "memory", Pick(memory, 0.0), "記憶體使用率", now);
    Checked(table, s2, "disk", Pick(disk, 0.0), "磁碟使用率", now)
  }

  /** `_check_system_alerts`: the three usage checks, then the load check. */
  function SystemChecked(table: map<string, real>, s: AlertState, cpu: Option<real>, memory: Option<real>,
                         disk: Option<real>, load: LoadAvg, now: int): AlertState
  {
    var s3 := UsageChecked(table, s, cpu, memory, disk, now);
    var l := LoadChecked(load);
    if l.None? then s3 else Checked(table, s3, "load", l.value, "系統負載", now)
  }

  /** The metric's alert is present exactly when its figure deserves one,
      and then has that severity. */
  predicate SeverityIs(r: AlertState, table: map<string, real>, metric: string, value: real)
  {
    var sev := Classify(value, Lookup(table, metric + "_warning"), Lookup(table, metric + "_critical"));
    (AlertKey(metric) in r.active <==> sev.Some?) &&
    (AlertKey(metric) in r.active ==> r.active[AlertKey(metric)].severity == sev.value)
  }

  /** A check of one metric leaves every other metric's alert as it was. */
  lemma CheckedKeepsSeverity(table: map<string, real>, s: AlertState, metric: string, value: real, name: string,
                             now: int, other: string, v: real)
    requires AlertStateValid(s) && AlertKey(other) != AlertKey(metric) && SeverityIs(s, table, other, v)
    ensures SeverityIs(Checked(table, s, metric, value, name, now), table, other, v)
  {
    CheckedFacts(table, s, metric, value, name, now);
  }

  /** The four metrics have four distinct alert keys. */
  lemma MetricKeysDistinct()
    ensures AlertKey("cpu") != AlertKey("memory") && AlertKey("cpu") != AlertKey("disk")
    ensures AlertKey("cpu") != AlertKey("load") && AlertKey("memory") != AlertKey("disk")
    ensures AlertKey("memory") != AlertKey("load") && AlertKey("disk") != AlertKey("load")
  {
    assert AlertKey("cpu")[0] == 'c' && AlertKey("memory")[0] == 'm';
    assert AlertKey("disk")[0] == 'd' && AlertKey("load")[0] == 'l';
  }

  /** One check keeps the alert state well formed, touches no other
      metric's alert and only appends to the history. */
  lemma CheckedFrame(table: map<string, real>, s: AlertState, metric: string, value: real, name: string, now: int)
    requires AlertStateValid(s)
    ensures var t := Checked(table, s, metric, value, name, now);
      AlertStateValid(t) && |t.history| >= |s.history| && t.history[..|s.history|] == s.history &&
      (forall k :: k != AlertKey(metric) ==> (k in t.active <==> k in s.active) && (k in s.active ==> t.active[k] == s.active[k]))
  {
    CheckedFacts(table, s, metric, value, name, now);
  }

  /** After the usage checks the alert state is well formed, alerts of
      other metrics are untouched and the history only grows. */
  lemma UsageCheckedFrame(table: map<string, real>, s: AlertState, cpu: Option<real>, memory: Option<real>,
                          disk: Option<real>, now: int)
    requires AlertStateValid(s)
    ensures var r := UsageChecked(table, s, cpu, memory, disk, now);
      AlertStateValid(r) && |r.history| >= |s.history| && r.history[..|s.history|] == s.history &&
      (forall k :: k != AlertKey("cpu") && k != AlertKey("memory") && k != AlertKey("disk") ==>
        (k in r.active <==> k in s.active) && (k in s.active ==> r.active[k] == s.active[k]))
  {
    var s1 := Checked(table, s, "cpu", Pick(cpu, 0.0), "CPU 使用率", now);
    CheckedFrame(table, s, "cpu", Pick(cpu, 0.0), "CPU 使用率", now);
    var s2 := Checked(table, s1, "memory", Pick(memory, 0.0), "記憶體使用率", now);
    CheckedFrame(table, s1, "memory", Pick(memory, 0.0), "記憶體使用率", now);
    var s3 := Checked(table, s2, "disk", Pick(disk, 0.0), "磁碟使用率", now);
    CheckedFrame(table, s2, "disk", Pick(disk, 0.0), "磁碟使用率", now);
    assert s3.history[..|s.history|] == s2.history[..|s1.history|][..|s.history|];
  }

  /** After the usage checks each of the three alerts has the severity its
      figure deserves, absent figures reading as 0. */
  lemma UsageCheckedFacts(table: map<string, real>, s: AlertState, cpu: Option<real>, memory: Option<real>,
                          disk: Option<real>, now: int)
    requires AlertStateValid(s)
    ensures var r := UsageChecked(table, s, cpu, memory, disk, now);
      SeverityIs(r, table, "cpu", Pick(cpu, 0.0)) && SeverityIs(r, table, "memory", Pick(memory, 0.0)) &&
      SeverityIs(r, table, "disk", Pick(disk, 0.0))
  {
    MetricKeysDistinct();
    var s1 := Checked(table, s, "cpu", Pick(cpu, 0.0), "CPU 使用率", now);
    CheckedFacts(table, s, "cpu", Pick(cpu, 0.0), "CPU 使用率", now);
    var s2 := Checked(table, s1, "memory", Pick(memory, 0.0), "記憶體使用率", now);
    CheckedFacts(table, s1, "memory", Pick(memory, 0.0), "記憶體使用率", now);
    CheckedKeepsSeverity(table, s1, "memory", Pick(memory, 0.0), "記憶體使用率", now, "cpu", Pick(cpu, 0.0));
    CheckedFacts(table, s2, "disk", Pick(disk, 0.0), "磁碟使用率", now);
    CheckedKeepsSeverity(table, s2, "disk", Pick(disk, 0.0), "磁碟使用率", now, "cpu", Pick(cpu, 0.0));
    CheckedKeepsSeverity(table, s2, "disk", Pick(disk, 0.0), "磁碟使用率", now, "memory", Pick(memory, 0.0));
  }

  /** After one snapshot each of the four alerts has the severity its figure
      deserves; the load alert is left as it was when the load check is
      skipped; alerts of other metrics are untouched and the history only
      grows. */
  lemma SystemCheckedFacts(table: map<string, real>, s: AlertState, cpu: Option<real>, memory: Option<real>,
                           disk: Option<real>, load: LoadAvg, now: int)
    requires AlertStateValid(s)
    ensures var r := SystemChecked(table, s, cpu, memory, disk, load, now);
      AlertStateValid(r) && |r.history| >= |s.history| && r.history[..|s.history|] == s.history &&
      (forall k :: k != AlertKey("cpu") && k != AlertKey("memory") && k != AlertKey("disk") && k != AlertKey("load") ==>
        (k in r.active <==> k in s.active) && (k in s.active ==> r.active[k] == s.active[k]))
    ensures var r := SystemChecked(table, s, cpu, memory, disk, load, now);
      SeverityIs(r, table, "cpu", Pick(cpu, 0.0)) && SeverityIs(r, table, "memory", Pick(memory, 0.0)) &&
      SeverityIs(r, table, "disk", Pick(disk, 0.0))
    ensures var r := SystemChecked(table, s, cpu, memory, disk, load, now);
      var l := LoadChecked(load);
      (l.Some? ==> SeverityIs(r, table, "load", l.value)) &&
      (l.None? ==> (AlertKey("load") in r.active <==> AlertKey("load") in s.active) &&
                   (AlertKey("load") in s.active ==> r.active[AlertKey("load")] == s.active[AlertKey("load")]))
  {
    SystemCheckedFrame(table, s, cpu, memory, disk, load, now);
    SystemCheckedUsage(table, s, cpu, memory, disk, load, now);
    SystemCheckedLoad(table, s, cpu, memory, disk, load, now);
  }

  /** The system check keeps the state valid, only appends to the history and
      leaves the alerts of other metrics alone. */
  lemma SystemCheckedFrame(table: map<string, real>, s: AlertState, cpu: Option<real>, memory: Option<real>,
                           disk: Option<real>, load: LoadAvg, now: int)
    requires AlertStateValid(s)
    ensures var r := SystemChecked(table, s, cpu, memory, disk, load, now);
      AlertStateValid(r) && |r.history| >= |s.history| && r.history[..|s.history|] == s.history &&
      (forall k :: k != AlertKey("cpu") && k != AlertKey("memory") && k != AlertKey("disk") && k != AlertKey("load") ==>
        (k in r.active <==> k in s.active) && (k in s.active ==> r.active[k] == s.active[k]))
  {
    UsageCheckedFrame(table, s, cpu, memory, disk, now);
    var s3 := UsageChecked(table, s, cpu, memory, disk, now);
    var l := LoadChecked(load);
    if l.Some? {
      CheckedFrame(table, s3, "load", l.value, "系統負載", now);
    }
  }

  /** After the system check, the cpu, memory and disk alerts match their
      figures, whatever the load reads. */
  lemma SystemCheckedUsage(table: map<string, real>, s: AlertState, cpu: Option<real>, memory: Option<real>,
                           disk: Option<real>, load: LoadAvg, now: int)
    requires AlertStateValid(s)
    ensures var r := SystemChecked(table, s, cpu, memory, disk, load, now);
      SeverityIs(r, table, "cpu", Pick(cpu, 0.0)) && SeverityIs(r, table, "memory", Pick(memory, 0.0)) &&
      SeverityIs(r, table, "disk", Pick(disk, 0.0))
  {
    MetricKeysDistinct();
    UsageCheckedFrame(table, s, cpu, memory, disk, now);
    UsageCheckedFacts(table, s, cpu, memory, disk, now);
    var s3 := UsageChecked(table, s, cpu, memory, disk, now);
    var l := LoadChecked(load);
    if l.Some? {
      CheckedKeepsSeverity(table, s3, "load", l.value, "系統負載", now, "cpu", Pick(cpu, 0.0));
      CheckedKeepsSeverity(table, s3, "load", l.value, "系統負載", now, "memory", Pick(memory, 0.0));
      CheckedKeepsSeverity(table, s3, "load", l.value, "系統負載", now, "disk", Pick(disk, 0.0));
    }
  }

  /** After the system check, the load alert matches the load figure when
      one was read, and is left as it was when none was. */
  lemma SystemCheckedLoad(table: map<string, real>, s: AlertState, cpu: Option<real>, memory: Option<real>,
                          disk: Option<real>, load: LoadAvg, now: int)
    requires AlertStateValid(s)
    ensures var r := SystemChecked(table, s, cpu, memory, disk, load, now);
      var l := LoadChecked(load);
      (l.Some? ==> SeverityIs(r, table, "load", l.value)) &&
      (l.None? ==> (AlertKey("load") in r.active <==> AlertKey("load") in s.active) &&
                   (AlertKey("load") in s.active ==> r.active[AlertKey("load")] == s.active[AlertKey("load")]))
  {
    MetricKeysDistinct();
    UsageCheckedFrame(table, s, cpu, memory, disk, now);
    var s3 := UsageChecked(table, s, cpu, memory, disk, now);
    var l := LoadChecked(load);
    if l.Some? {
      CheckedFacts(table, s3, "load", l.value, "系統負載", now);
    }
  }

  /** A figure below both thresholds clears the metric's alert and adds
      nothing to the history. */
  lemma CheckedBelowWarning(table: map<string, real>, s: AlertState, metric: string, value: real, name: string, now: int)
    requires AlertStateValid(s)
    requires value < Lookup(table, metric + "_warning") && value < Lookup(table, metric + "_critical")
    ensures AlertKey(metric) !in Checked(table, s, metric, value, name, now).active
    ensures Checked(table, s, metric, value, name, now).history == s.history
  {
    CheckedFacts(table, s, metric, value, name, now);
  }

  /** As written: with the summary's `load_avg`, which is text, the load
      is checked at 0 (or skipped when empty), so under positive load
      thresholds (the defaults are 2 and 4) no load alert is active
      afterwards unless an earlier one is kept by an empty text, and the
      load check adds nothing to the history, whatever the machine's load. */
  lemma LoadTextNeverAlerts(table: map<string, real>, s: AlertState, cpu: Option<real>, memory: Option<real>,
                            disk: Option<real>, text: string, now: int)
    requires AlertStateValid(s)
    requires Lookup(table, "load_warning") > 0.0 && Lookup(table, "load_critical") > 0.0
    ensures var r := SystemChecked(table, s, cpu, memory, disk, LoadText(text), now);
      ((text != [] || AlertKey("load") !in s.active) ==> AlertKey("load") !in r.active) &&
      r.history == UsageChecked(table, s, cpu, memory, disk, now).history
  {
    var s3 := UsageChecked(table, s, cpu, memory, disk, now);
    UsageCheckedFrame(table, s, cpu, memory, disk, now);
    if text != [] {
      assert SystemChecked(table, s, cpu, memory, disk, LoadText(text), now) == Checked(table, s3, "load", 0.0, "系統負載", now);
      assert "load" + "_warning" == "load_warning" && "load" + "_critical" == "load_critical";
      CheckedBelowWarning(table, s3, "load", 0.0, "系統負載", now);
    } else {
      assert SystemChecked(table, s, cpu, memory, disk, LoadText(text), now) == s3;
      MetricKeysDistinct();
    }
  }

  /** The default thresholds are positive, so the summary's text never
      leaves a load alert active. */
  lemma DefaultLoadTextNeverAlerts(s: AlertState, cpu: Option<real>, memory: Option<real>, disk: Option<real>,
                                   text: string, now: int)
    requires AlertStateValid(s)
    requires text != [] || AlertKey("load") !in s.active
    ensures AlertKey("load") !in SystemChecked(DefaultTable(), s, cpu, memory, disk, LoadText(text), now).active
  {
    LoadTextNeverAlerts(DefaultTable(), s, cpu, memory, disk, text, now);
  }

  /** As intended: given the load figures as a list, the one-minute load is
      checked, so a load at or above the warning threshold leaves an active
      load alert of the severity it deserves. */
  lemma LoadListAlerts(table: map<string, real>, s: AlertState, cpu: Option<real>, memory: Option<real>,
                       disk: Option<real>, loads: seq<real>, now: int)
    requires AlertStateValid(s) && loads != []
    ensures var r := SystemChecked(table, s, cpu, memory, disk, LoadList(loads), now);
      SeverityIs(r, table, "load", loads[0]) &&
      (loads[0] >= Lookup(table, "load_warning") ==> AlertKey("load") in r.active)
  {
    assert "load" + "_warning" == "load_warning";
    SystemCheckedFacts(table, s, cpu, memory, disk, LoadList(loads), now);
  }

  class Controller {
    var thresholds: map<string, real>
    var activeAlerts: map<string, Alert>
    var order: seq<string>
    var history: seq<Alert>

    function State(): AlertState
      reads this
    {
      AlertState(activeAlerts, order, history)
    }

    ghost predicate Valid()
      reads this
    {
      AlertStateValid(State())
    }

    constructor ()
      ensures Valid()
      ensures thresholds == DefaultTable() && activeAlerts == map[] && order == [] && history == []
    {
      thresholds := DefaultTable();
      activeAlerts := map[];
      order := [];
      history := [];
    }

    /** `_trigger_alert` */
    method TriggerAlert(key: string, a: Alert)
      requires Valid() && a.isActive
      modifies this
      ensures Valid()
      ensures thresholds == old(thresholds)
      ensures State() == Triggered(old(State()), key, a)
    {
      if key !in activeAlerts {
        order := order + [key];
      }
      activeAlerts := activeAlerts[key := a];
      history := history + [a];
    }

    /** `_clear_alert` */
    method ClearAlert(key: string)
      requires Valid()
      modifies this
      ensures Valid()
      ensures thresholds == old(thresholds) && history == old(history)
      ensures State() == Cleared(old(State()), key)
    {
      if key in activeAlerts {
        RemoveDistinct(order, key);
        activeAlerts := activeAlerts - {key};
        order := Remove(order, key);
      }
    }

    /** `_check_threshold_alert` */
    method CheckThresholdAlert(metric: string, value: real, name: string, now: int)
      requires Valid()
      modifies this
      ensures Valid()
      ensures thresholds == old(thresholds)
      ensures State() == Checked(old(thresholds), old(State()), metric, value, name, now)
    {
      var warning := Lookup(thresholds, metric + "_warning");
      var critical := Lookup(thresholds, metric + "_critical");
      var key := AlertKey(metric);
      if value >= critical {
        if key !in activeAlerts || activeAlerts[key].severity != Critical {
          TriggerAlert(key, NewAlert(Critical, name, value, critical, now));
        }
      } else if value >= warning {
        if key !in activeAlerts || activeAlerts[key].severity != Warning {
          TriggerAlert(key, NewAlert(Warning, name, value, warning, now));
        }
      } else {
        if key in activeAlerts {
          ClearAlert(key);
        }
      }
    }

    /** `_check_system_alerts` over one snapshot. */
    method CheckSystemAlerts(cpu: Option<real>, memory: Option<real>, disk: Option<real>,
                             loadAvg: LoadAvg, now: int)
      requires Valid()
      modifies this
      ensures Valid()
      ensures thresholds == old(thresholds)
      ensures State() == SystemChecked(old(thresholds), old(State()), cpu, memory, disk, loadAvg, now)
    {
      CheckThresholdAlert("cpu", Pick(cpu, 0.0), "CPU 使用率", now);
      CheckThresholdAlert("memory", Pick(memory, 0.0), "記憶體使用率", now);
      CheckThresholdAlert("disk", Pick(disk, 0.0), "磁碟使用率", now);
      var load := if loadAvg.LoadMissing? then LoadList([0.0, 0.0, 0.0]) else loadAvg;
      if (load.LoadList? && load.values != []) || (load.LoadText? && load.text != []) {
        var load1 := if load.LoadList? then load.values[0] else 0.0;
        CheckThresholdAlert("load", load1, "系統負載", now);
      }
    }

    /** `update_alert_thresholds`: a merge, so keys not supplied keep their
        values; `saved` is whether writing the file succeeded, which is the
        result (the in-memory table is updated either way). */
    method UpdateAlertThresholds(updates: map<string, real>, saved: bool) returns (ok: bool)
      modifies this
      ensures ok == saved
      ensures thresholds == old(thresholds) + updates
      ensures forall k :: k in updates ==> thresholds[k] == updates[k]
      ensures forall k :: k in old(thresholds) && k !in updates ==> thresholds[k] == old(thresholds)[k]
      ensures activeAlerts == old(activeAlerts) && order == old(order) && history == old(history)
    {
      thresholds := thresholds + updates;
      ok := saved;
    }

    /** `get_current_alerts`: the active alerts in insertion order. */
    function GetCurrentAlerts(): (r: seq<Alert>)
      reads this
      requires Valid()
      ensures |r| == |order|
      ensures forall a :: a in r <==> a in activeAlerts.Values
    {
      var o := order;
      var m := activeAlerts;
      var r := seq(|o|, i requires 0 <= i < |o| && o[i] in m => m[o[i]]);
      assert forall a :: a in activeAlerts.Values ==> a in r by {
        forall a | a in activeAlerts.Values ensures a in r {
          var k :| k in activeAlerts && activeAlerts[k] == a;
          var i :| 0 <= i < |o| && o[i] == k;
          assert r[i] == a;
        }
      }
      r
    }

    /** `get_alert_thresholds`: a copy of the table. */
    function GetAlertThresholds(): map<string, real>
      reads this
    {
      thresholds
    }
  }
}
