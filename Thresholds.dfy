/**
 * Alert threshold configuration: the per-category warning/critical pairs,
 * their field bounds, the defaults used when no configuration is stored,
 * and the validation the update route performs before it saves.
 */
module Thresholds {
  import opened Common

  /** One category's pair of thresholds. */
  datatype Band = Band(warning: real, critical: real)

  /** `AlertThresholds`: exactly four category records. */
  datatype ThresholdSet = ThresholdSet(cpu: Band, memory: Band, disk: Band, load: Band)

  /** `ThresholdConfig`: both values are percentages. */
  predicate PercentBandValid(b: Band)
  {
    0.0 <= b.warning <= 100.0 && 0.0 <= b.critical <= 100.0
  }

  /** `LoadThresholdConfig`: both values are non-negative, with no upper
      bound. */
  predicate LoadBandValid(b: Band)
  {
    0.0 <= b.warning && 0.0 <= b.critical
  }

  predicate ThresholdSetValid(t: ThresholdSet)
  {
    PercentBandValid(t.cpu) && PercentBandValid(t.memory) && PercentBandValid(t.disk) && LoadBandValid(t.load)
  }

  /** The warning level lies strictly below the critical one. */
  predicate Ordered(b: Band)
  {
    b.warning < b.critical
  }

  /** The configuration used when none is stored. */
  function DefaultThresholds(): ThresholdSet
  {
    ThresholdSet(Band(70.0, 85.0), Band(80.0, 90.0), Band(85.0, 95.0), Band(2.0, 4.0))
  }

  /** The defaults satisfy the bounds and are ordered in every category. */
  lemma DefaultThresholdsFacts()
    ensures var d := DefaultThresholds();
      ThresholdSetValid(d) && Ordered(d.cpu) && Ordered(d.memory) && Ordered(d.disk) && Ordered(d.load)
  {
  }

  /** The JSON shape of a configuration: four categories of two values. */
  function ConfigDict(t: ThresholdSet): map<string, map<string, real>>
  {
    map["cpu" := BandDict(t.cpu), "memory" := BandDict(t.memory),
        "disk" := BandDict(t.disk), "load" := BandDict(t.load)]
  }

  function BandDict(b: Band): map<string, real>
  {
    map["warning" := b.warning, "critical" := b.critical]
  }

  /** A configuration always has exactly the four category keys, each with
      exactly `warning` and `critical`, holding the record's values. */
  lemma ConfigDictShape(t: ThresholdSet)
    ensures ConfigDict(t).Keys == {"cpu", "memory", "disk", "load"}
    ensures forall k :: k in ConfigDict(t) ==> ConfigDict(t)[k].Keys == {"warning", "critical"}
    ensures ConfigDict(t)["cpu"]["warning"] == t.cpu.warning && ConfigDict(t)["cpu"]["critical"] == t.cpu.critical
    ensures ConfigDict(t)["load"]["warning"] == t.load.warning && ConfigDict(t)["load"]["critical"] == t.load.critical
  {
  }

  /** `load_thresholds`: the stored configuration when there is one;
      otherwise the defaults, which are also what gets stored. */
  function LoadThresholds(stored: Option<ThresholdSet>): (r: (ThresholdSet, Option<ThresholdSet>))
    ensures stored.Some? ==> r.0 == stored.value && r.1.None?
    ensures stored.None? ==> r.0 == DefaultThresholds() && r.1 == Some(DefaultThresholds())
  {
    if stored.Some? then (stored.value, None) else (DefaultThresholds(), Some(DefaultThresholds()))
  }

  /** `ThresholdUpdateRequest` */
  datatype UpdateRequest = UpdateRequest(
    cpuWarning: real, cpuCritical: real,
    memoryWarning: real, memoryCritical: real,
    diskWarning: real, diskCritical: real,
    loadWarning: real, loadCritical: real)

  predicate Percent(r: real) { 0.0 <= r <= 100.0 }

  /** The request's field bounds: percentages for cpu, memory and disk,
      non-negative values for load. */
  predicate RequestFieldsValid(q: UpdateRequest)
  {
    Percent(q.cpuWarning) && Percent(q.cpuCritical) &&
    Percent(q.memoryWarning) && Percent(q.memoryCritical) &&
    Percent(q.diskWarning) && Percent(q.diskCritical) &&
    0.0 <= q.loadWarning && 0.0 <= q.loadCritical
  }

  function RequestThresholds(q: UpdateRequest): ThresholdSet
  {
    ThresholdSet(Band(q.cpuWarning, q.cpuCritical), Band(q.memoryWarning, q.memoryCritical),
                 Band(q.diskWarning, q.diskCritical), Band(q.loadWarning, q.loadCritical))
  }

  const CpuOrderError := "CPU 警告閾值必須小於嚴重閾值"
  const MemoryOrderError := "記憶體警告閾值必須小於嚴重閾值"
  const DiskOrderError := "磁碟警告閾值必須小於嚴重閾值"
  const LoadOrderError := "負載警告閾值必須小於嚴重閾值"

  /** `update_thresholds`: field bounds first (422), then the four ordering
      checks in order (400, first failure reported), then the new
      configuration, which is what gets saved. */
  function UpdateThresholds(q: UpdateRequest): Result<ThresholdSet>
  {
    if !RequestFieldsValid(q) then Err(422, "field out of range")
    else if q.cpuWarning >= q.cpuCritical then Err(400, CpuOrderError)
    else if q.memoryWarning >= q.memoryCritical then Err(400, MemoryOrderError)
    else if q.diskWarning >= q.diskCritical then Err(400, DiskOrderError)
    else if q.loadWarning >= q.loadCritical then Err(400, LoadOrderError)
    else Ok(RequestThresholds(q))
  }

  /** An update is accepted exactly when every field is in range and every
      category is ordered; an accepted configuration copies the request's
      values verbatim and satisfies the model bounds; a refusal names the
      first failing category in the order cpu, memory, disk, load. */
  lemma UpdateThresholdsFacts(q: UpdateRequest)
    ensures var r := UpdateThresholds(q); var t := RequestThresholds(q);
      (r.Ok? <==> RequestFieldsValid(q) && Ordered(t.cpu) && Ordered(t.memory) && Ordered(t.disk) && Ordered(t.load)) &&
      (r.Ok? ==> r.value == t && ThresholdSetValid(r.value) &&
                 r.value.cpu.warning == q.cpuWarning && r.value.load.critical == q.loadCritical) &&
      (RequestFieldsValid(q) && !Ordered(t.cpu) ==> r == Err(400, CpuOrderError)) &&
      (RequestFieldsValid(q) && Ordered(t.cpu) && !Ordered(t.memory) ==> r == Err(400, MemoryOrderError)) &&
      (RequestFieldsValid(q) && Ordered(t.cpu) && Ordered(t.memory) && !Ordered(t.disk) ==> r == Err(400, DiskOrderError)) &&
      (RequestFieldsValid(q) && Ordered(t.cpu) && Ordered(t.memory) && Ordered(t.disk) && !Ordered(t.load) ==>
         r == Err(400, LoadOrderError)) &&
      (r.Err? ==> r.status == 400 || r.status == 422)
  {
  }
}
