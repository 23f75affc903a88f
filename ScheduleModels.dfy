/**
 * The report-schedule data model: schedule types and statuses, week days,
 * the `HH:MM` time pattern, the schedule record with its defaults, the
 * create and update requests with their field bounds, the two cross-field
 * validators, and the execution log record. Times are integer seconds of
 * local time; identifiers are natural numbers handed out fresh.
 */
module ScheduleModels {
  import opened Common

  type Id = nat

  datatype ScheduleType = Daily | Weekly | Hourly | Custom

  datatype ScheduleStatus = Active | Inactive | Paused

  datatype WeekDay = Monday | Tuesday | Wednesday | Thursday | Friday | Saturday | Sunday

  function ScheduleTypeValue(t: ScheduleType): string
  {
    match t
    case Daily => "daily"
    case Weekly => "weekly"
    case Hourly => "hourly"
    case Custom => "custom"
  }

  function ScheduleStatusValue(s: ScheduleStatus): string
  {
    match s
    case Active => "active"
    case Inactive => "inactive"
    case Paused => "paused"
  }

  function WeekDayValue(d: WeekDay): string
  {
    match d
    case Monday => "monday"
    case Tuesday => "tuesday"
    case Wednesday => "wednesday"
    case Thursday => "thursday"
    case Friday => "friday"
    case Saturday => "saturday"
    case Sunday => "sunday"
  }

  /** The scheduler's weekday table: Monday is 0, as in Python's
      `date.weekday()`. */
  function WeekdayIndex(d: WeekDay): (i: int)
    ensures 0 <= i < 7
  {
    match d
    case Monday => 0
    case Tuesday => 1
    case Wednesday => 2
    case Thursday => 3
    case Friday => 4
    case Saturday => 5
    case Sunday => 6
  }

  /** The day with a given weekday number. */
  function WeekDayOf(i: int): WeekDay
    requires 0 <= i < 7
  {
    if i == 0 then Monday else if i == 1 then Tuesday else if i == 2 then Wednesday
    else if i == 3 then Thursday else if i == 4 then Friday else if i == 5 then Saturday
    else Sunday
  }

  /** The weekday table is a bijection between the seven `WeekDay` values
      and the numbers 0..6, and its keys are exactly the enumeration's
      values. */
  lemma WeekdayTableFacts(d: WeekDay, i: int)
    ensures WeekDayOf(WeekdayIndex(d)) == d
    ensures 0 <= i < 7 ==> WeekdayIndex(WeekDayOf(i)) == i
    ensures WeekDayValue(d) in {"monday", "tuesday", "wednesday", "thursday", "friday", "saturday", "sunday"}
  {
  }

  lemma WeekDayValueInjective(a: WeekDay, b: WeekDay)
    ensures WeekDayValue(a) == WeekDayValue(b) ==> a == b
  {
  }

  // ---------------------------------------------------------------------
  // The time pattern ^([01]?[0-9]|2[0-3]):[0-5][0-9]$
  // ---------------------------------------------------------------------

  predicate IsDigit(c: char) { '0' <= c <= '9' }

  function DigitValue(c: char): int
    requires IsDigit(c)
  {
    c as int - '0' as int
  }

  /** A one- or two-digit hour from 0 to 23, a colon, and two minute digits
      from 00 to 59. */
  predicate TimePattern(s: string)
  {
    (|s| == 4 && IsDigit(s[0]) && s[1] == ':' && '0' <= s[2] <= '5' && IsDigit(s[3])) ||
    (|s| == 5 &&
     (((s[0] == '0' || s[0] == '1') && IsDigit(s[1])) || (s[0] == '2' && '0' <= s[1] <= '3')) &&
     s[2] == ':' && '0' <= s[3] <= '5' && IsDigit(s[4]))
  }

  function HourOf(s: string): int
    requires TimePattern(s)
  {
    if |s| == 4 then DigitValue(s[0]) else 10 * DigitValue(s[0]) + DigitValue(s[1])
  }

  function MinuteOf(s: string): int
    requires TimePattern(s)
  {
    10 * DigitValue(s[|s| - 2]) + DigitValue(s[|s| - 1])
  }

  /** `strptime(time, "%H:%M")` on a string of the pattern, as seconds
      after midnight; `None` for any other string. */
  function SecondsOfDay(s: string): (r: Option<int>)
    ensures r.Some? <==> TimePattern(s)
    ensures r.Some? ==> 0 <= r.value < 86400 && r.value % 60 == 0
  {
    if TimePattern(s) then Some(HourOf(s) * 3600 + MinuteOf(s) * 60) else None
  }

  function DigitChar(n: int): char
    requires 0 <= n < 10
  {
    ('0' as int + n) as char
  }

  /** Two-digit zero-padded `HH:MM`. */
  function FormatTime(h: int, m: int): string
    requires 0 <= h < 24 && 0 <= m < 60
  {
    [DigitChar(h / 10), DigitChar(h % 10), ':', DigitChar(m / 10), DigitChar(m % 10)]
  }

  /** The pattern accepts exactly the hours 0..23 and the minutes 0..59. */
  lemma TimePatternBounds(s: string)
    requires TimePattern(s)
    ensures 0 <= HourOf(s) <= 23 && 0 <= MinuteOf(s) <= 59
  {
  }

  /** Every hour and minute in range, written zero-padded, matches the
      pattern and reads back as the same hour and minute. */
  lemma FormatTimeRoundTrip(h: int, m: int)
    requires 0 <= h < 24 && 0 <= m < 60
    ensures TimePattern(FormatTime(h, m))
    ensures HourOf(FormatTime(h, m)) == h && MinuteOf(FormatTime(h, m)) == m
  {
  }

  /** Conversely, a string of the pattern is the zero-padded form of its
      hour and minute, or that form without the leading zero of an hour
      below ten. */
  lemma TimePatternIsFormatted(s: string)
    requires TimePattern(s)
    ensures var h := HourOf(s); var m := MinuteOf(s);
      0 <= h < 24 && 0 <= m < 60 &&
      (s == FormatTime(h, m) || (h < 10 && s == FormatTime(h, m)[1..]))
  {
    var h := HourOf(s);
    var m := MinuteOf(s);
    TimePatternBounds(s);
    var f := FormatTime(h, m);
    if |s| == 5 {
      assert s[0] == DigitChar(h / 10) && s[1] == DigitChar(h % 10);
      assert s == f;
    } else {
      assert s[0] == DigitChar(h % 10);
      assert s == f[1..];
    }
  }

  // ---------------------------------------------------------------------
  // Records
  // ---------------------------------------------------------------------

  datatype ScheduleConfig = ScheduleConfig(
    id: Id,
    name: string,
    description: Option<string>,
    kind: ScheduleType,
    status: ScheduleStatus,
    time: string,
    timezone: string,
    weekdays: Option<seq<WeekDay>>,
    intervalHours: Option<int>,
    includeSystemInfo: bool,
    includeProcessInfo: bool,
    includeNetworkInfo: bool,
    includeAlerts: bool,
    includeCharts: bool,
    customMessage: Option<string>,
    createdAt: int,
    updatedAt: int,
    lastRun: Option<int>,
    nextRun: Option<int>,
    runCount: int)

  datatype ScheduleCreate = ScheduleCreate(
    name: string,
    description: Option<string>,
    kind: ScheduleType,
    time: string,
    timezone: string,
    weekdays: Option<seq<WeekDay>>,
    intervalHours: Option<int>,
    includeSystemInfo: bool,
    includeProcessInfo: bool,
    includeNetworkInfo: bool,
    includeAlerts: bool,
    includeCharts: bool,
    customMessage: Option<string>)

  predicate IntervalInBounds(h: int) { 1 <= h <= 168 }

  predicate NameInBounds(n: string) { 1 <= |n| <= 100 }

  predicate OptionalWithin(s: Option<string>, max: nat) { s.Some? ==> |s.value| <= max }

  /** The field constraints of `ScheduleCreateRequest`. */
  predicate ScheduleCreateValid(q: ScheduleCreate)
  {
    NameInBounds(q.name) && OptionalWithin(q.description, 500) && TimePattern(q.time) &&
    (q.intervalHours.Some? ==> IntervalInBounds(q.intervalHours.value)) &&
    OptionalWithin(q.customMessage, 1000)
  }

  /** `validate_weekdays` and `validate_interval_hours` on values that were
      supplied: a weekly schedule needs a non-empty day list and an hourly
      one a non-zero interval. */
  predicate ValidatorsAccept(kind: ScheduleType, weekdays: Option<seq<WeekDay>>, intervalHours: Option<int>)
  {
    (kind == Weekly ==> weekdays.Some? && weekdays.value != []) &&
    (kind == Hourly ==> intervalHours.Some? && intervalHours.value != 0)
  }

  /** `ScheduleConfig(id=..., **request)`: the request's fields, and the
      defaults for the rest. */
  function NewSchedule(id: Id, q: ScheduleCreate, now: int): (c: ScheduleConfig)
    ensures c.id == id && c.name == q.name && c.kind == q.kind && c.time == q.time
    ensures c.weekdays == q.weekdays && c.intervalHours == q.intervalHours
    ensures c.status == Active && c.runCount == 0 && c.lastRun.None? && c.nextRun.None?
    ensures c.createdAt == now && c.updatedAt == now
  {
    ScheduleConfig(id, q.name, q.description, q.kind, Active, q.time, q.timezone, q.weekdays,
                   q.intervalHours, q.includeSystemInfo, q.includeProcessInfo, q.includeNetworkInfo,
                   q.includeAlerts, q.includeCharts, q.customMessage, now, now, None, None, 0)
  }

  /** `ScheduleUpdateRequest`: a field is `Some` when supplied with a value.
      A field sent as `null` is `None` too: the update route drops such
      fields before they reach the scheduler. */
  datatype ScheduleUpdate = ScheduleUpdate(
    name: Option<string>,
    description: Option<string>,
    kind: Option<ScheduleType>,
    status: Option<ScheduleStatus>,
    time: Option<string>,
    timezone: Option<string>,
    weekdays: Option<seq<WeekDay>>,
    intervalHours: Option<int>,
    includeSystemInfo: Option<bool>,
    includeProcessInfo: Option<bool>,
    includeNetworkInfo: Option<bool>,
    includeAlerts: Option<bool>,
    includeCharts: Option<bool>,
    customMessage: Option<string>)

  /** The update carrying only a new status, as pause and resume send it. */
  function StatusOnly(s: ScheduleStatus): ScheduleUpdate
  {
    ScheduleUpdate(None, None, None, Some(s), None, None, None, None, None, None, None, None, None, None)
  }

  predicate ScheduleUpdateValid(u: ScheduleUpdate)
  {
    (u.name.Some? ==> NameInBounds(u.name.value)) && OptionalWithin(u.description, 500) &&
    (u.time.Some? ==> TimePattern(u.time.value)) &&
    (u.intervalHours.Some? ==> IntervalInBounds(u.intervalHours.value)) &&
    OptionalWithin(u.customMessage, 1000)
  }

  /** The schedule after every supplied field of `u` is set on it and
      `updated_at` is refreshed. No validation runs on assignment, so the
      cross-field validators are not applied here. */
  function ApplyScheduleUpdate(c: ScheduleConfig, u: ScheduleUpdate, now: int): (r: ScheduleConfig)
    ensures r.id == c.id && r.createdAt == c.createdAt && r.updatedAt == now
    ensures r.lastRun == c.lastRun && r.nextRun == c.nextRun && r.runCount == c.runCount
    ensures r.status == Pick(u.status, c.status) && r.kind == Pick(u.kind, c.kind)
    ensures r.time == Pick(u.time, c.time) && r.name == Pick(u.name, c.name)
    ensures r.weekdays == (if u.weekdays.Some? then u.weekdays else c.weekdays)
    ensures r.intervalHours == (if u.intervalHours.Some? then u.intervalHours else c.intervalHours)
  {
    ScheduleConfig(
      c.id, Pick(u.name, c.name),
      if u.description.Some? then u.description else c.description,
      Pick(u.kind, c.kind), Pick(u.status, c.status), Pick(u.time, c.time),
      Pick(u.timezone, c.timezone),
      if u.weekdays.Some? then u.weekdays else c.weekdays,
      if u.intervalHours.Some? then u.intervalHours else c.intervalHours,
      Pick(u.includeSystemInfo, c.includeSystemInfo), Pick(u.includeProcessInfo, c.includeProcessInfo),
      Pick(u.includeNetworkInfo, c.includeNetworkInfo), Pick(u.includeAlerts, c.includeAlerts),
      Pick(u.includeCharts, c.includeCharts),
      if u.customMessage.Some? then u.customMessage else c.customMessage,
      c.createdAt, now, c.lastRun, c.nextRun, c.runCount)
  }

  /** A status-only update changes the status and `updated_at` and nothing
      else. */
  lemma StatusOnlyUpdate(c: ScheduleConfig, s: ScheduleStatus, now: int)
    ensures ApplyScheduleUpdate(c, StatusOnly(s), now) == c.(status := s, updatedAt := now)
  {
  }

  datatype ExecutionLog = ExecutionLog(
    id: Id,
    scheduleId: Id,
    executedAt: int,
    success: bool,
    message: Option<string>,
    error: Option<string>,
    executionTimeMs: Option<int>,
    discordMessageId: Option<string>)
}
