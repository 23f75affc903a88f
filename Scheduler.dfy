/**
 * The report scheduler: next-run arithmetic for the four schedule types,
 * the schedule table and its create/update/delete operations, the
 * execution log with its filtered last-N view and the 100-entry persisted
 * tail, the bookkeeping of one run, and the set of timer jobs registered
 * for the active schedules.
 *
 * Time is integer seconds of local time since 1970-01-01 00:00, a Thursday.
 * The timer library, the thread pool, the report sender and the JSON file
 * are outside the model: what a run's send reported, how long it took and
 * the clock are parameters.
 */
module Scheduler {
  import opened Common
  import opened ScheduleModels

  // ---------------------------------------------------------------------
  // Calendar arithmetic
  // ---------------------------------------------------------------------

  /** The number of the day that contains local time `t`. */
  function DayOf(t: int): int { t / 86400 }

  /** Local midnight starting day `d`. */
  function Midnight(d: int): int { d * 86400 }

  /** `date.weekday()` of day `d`: Monday is 0; day 0 was a Thursday. */
  function Weekday(d: int): (w: int)
    ensures 0 <= w < 7
  {
    (d + 3) % 7
  }

  lemma MidnightBounds(t: int)
    ensures Midnight(DayOf(t)) <= t < Midnight(DayOf(t)) + 86400
  {
  }

  /** A time given as a day and seconds after midnight has that day and
      that time of day. */
  lemma TimeOnDay(d: int, tod: int)
    requires 0 <= tod < 86400
    ensures DayOf(Midnight(d) + tod) == d && (Midnight(d) + tod) % 86400 == tod
  {
  }

  lemma WeekdayPeriodic(d: int)
    ensures Weekday(d + 7) == Weekday(d)
  {
  }

  /** Every weekday occurs exactly once in any seven consecutive days. */
  lemma WeekdayWithinAWeek(d: int, w: int) returns (j: int)
    requires 0 <= w < 7
    ensures 0 <= j < 7 && Weekday(d + j) == w
  {
    j := (w - Weekday(d)) % 7;
  }

  /** `weekday_map[day] for day in weekdays` */
  function Targets(days: seq<WeekDay>): (t: seq<int>)
    ensures |t| == |days|
    ensures forall k :: 0 <= k < |days| ==> t[k] == WeekdayIndex(days[k])
  {
    if days == [] then [] else [WeekdayIndex(days[0])] + Targets(days[1..])
  }

  // ---------------------------------------------------------------------
  // Next run
  // ---------------------------------------------------------------------

  /** Day `today + j` is a target weekday and its run time is still ahead. */
  predicate Hit(targets: seq<int>, today: int, tod: int, now: int, j: int)
  {
    Weekday(today + j) in targets && Midnight(today + j) + tod > now
  }

  /** The weekly search over the offsets `i..6`, falling back to the same
      time seven days from today. */
  function WeeklySearch(targets: seq<int>, today: int, tod: int, now: int, i: int): int
    requires 0 <= i <= 7
    decreases 7 - i
  {
    if i == 7 then Midnight(today + 7) + tod
    else if Hit(targets, today, tod, now, i) then Midnight(today + i) + tod
    else WeeklySearch(targets, today, tod, now, i + 1)
  }

  /** `_calculate_next_run`; `None` where the source raises: a time that
      does not parse, a weekly schedule without a day list, an hourly one
      without an interval. */
  function NextRun(c: ScheduleConfig, now: int): Option<int>
  {
    var tod := SecondsOfDay(c.time);
    if tod.None? then None
    else
      var today := DayOf(now);
      match c.kind
      case Daily =>
        var t := Midnight(today) + tod.value;
        Some(if t <= now then t + 86400 else t)
      case Weekly =>
        if c.weekdays.None? then None
        else Some(WeeklySearch(Targets(c.weekdays.value), today, tod.value, now, 0))
      case Hourly =>
        if c.intervalHours.None? then None else Some(now + c.intervalHours.value * 3600)
      case Custom => Some(Midnight(today + 1) + tod.value)
  }

  /** The next run exists exactly when the time parses and the type's own
      field is present. */
  lemma NextRunDefined(c: ScheduleConfig, now: int)
    ensures NextRun(c, now).Some? <==>
      TimePattern(c.time) && (c.kind == Weekly ==> c.weekdays.Some?) &&
      (c.kind == Hourly ==> c.intervalHours.Some?)
  {
  }

  /** The next run depends on the type, the time, the day list and the
      interval only: not on the status or the run history. */
  lemma NextRunDependsOnTiming(c: ScheduleConfig, d: ScheduleConfig, now: int)
    requires c.kind == d.kind && c.time == d.time && c.weekdays == d.weekdays && c.intervalHours == d.intervalHours
    ensures NextRun(c, now) == NextRun(d, now)
  {
  }

  /** DAILY: today at the schedule's time when that is strictly after `now`,
      otherwise tomorrow at that time; hence strictly after `now` and at
      most a day later, and no earlier time of day `tod` qualifies. */
  lemma DailyNextRun(c: ScheduleConfig, now: int)
    requires c.kind == Daily && TimePattern(c.time)
    ensures var r := NextRun(c, now); var tod := SecondsOfDay(c.time).value;
      r.Some? && now < r.value <= now + 86400 && r.value % 86400 == tod &&
      (Midnight(DayOf(now)) + tod > now ==> DayOf(r.value) == DayOf(now)) &&
      (Midnight(DayOf(now)) + tod <= now ==> DayOf(r.value) == DayOf(now) + 1) &&
      (forall t :: now < t < r.value ==> t % 86400 != tod)
  {
    var tod := SecondsOfDay(c.time).value;
    var today := DayOf(now);
    MidnightBounds(now);
    TimeOnDay(today, tod);
    TimeOnDay(today + 1, tod);
    var r := NextRun(c, now).value;
    forall t | now < t < r
      ensures t % 86400 != tod
    {
      MidnightBounds(t);
    }
  }

  /** What the search from offset `i` returns: a time at time of day `tod`,
      after `now`, on a day at offset `i..7`; at offsets below 7 a target
      weekday; and no offset from `i` up to the result's is a hit. */
  lemma {:induction false} WeeklySearchFacts(targets: seq<int>, today: int, tod: int, now: int, i: int)
    requires 0 <= tod < 86400 && Midnight(today) <= now < Midnight(today) + 86400
    requires 0 <= i <= 7
    ensures var r := WeeklySearch(targets, today, tod, now, i);
      r % 86400 == tod && r > now && i <= DayOf(r) - today <= 7 &&
      (DayOf(r) - today < 7 ==> Weekday(DayOf(r)) in targets) &&
      (forall j :: i <= j < DayOf(r) - today ==> !Hit(targets, today, tod, now, j))
    decreases 7 - i
  {
    TimeOnDay(today + i, tod);
    if i == 7 {
    } else if Hit(targets, today, tod, now, i) {
    } else {
      WeeklySearchFacts(targets, today, tod, now, i + 1);
    }
  }

  /** With at least one target weekday the search ends on a target weekday
      no more than seven days after `now`. */
  lemma WeeklySearchWindow(targets: seq<int>, today: int, tod: int, now: int)
    requires 0 <= tod < 86400 && Midnight(today) <= now < Midnight(today) + 86400
    requires targets != [] && 0 <= targets[0] < 7
    ensures var r := WeeklySearch(targets, today, tod, now, 0);
      r <= now + 7 * 86400 && Weekday(DayOf(r)) in targets
  {
    var r := WeeklySearch(targets, today, tod, now, 0);
    WeeklySearchFacts(targets, today, tod, now, 0);
    TimeOnDay(DayOf(r), tod);
    if DayOf(r) - today == 7 {
      // The listed weekday's offset was no hit, so its time had passed,
      // which happens only today.
      var j0 := WeekdayWithinAWeek(today, targets[0]);
      assert !Hit(targets, today, tod, now, j0);
      TimeOnDay(today + j0, tod);
      assert j0 == 0;
      WeekdayPeriodic(today);
      assert r == Midnight(today + 7) + tod;
    } else {
      assert r == Midnight(DayOf(r)) + tod;
    }
  }

  /** No time strictly between `now` and the search's result falls on a
      target weekday at time of day `tod`. */
  lemma WeeklySearchFirst(targets: seq<int>, today: int, tod: int, now: int, t: int)
    requires 0 <= tod < 86400 && Midnight(today) <= now < Midnight(today) + 86400
    requires now < t < WeeklySearch(targets, today, tod, now, 0) && t % 86400 == tod
    ensures Weekday(DayOf(t)) !in targets
  {
    var r := WeeklySearch(targets, today, tod, now, 0);
    WeeklySearchFacts(targets, today, tod, now, 0);
    TimeOnDay(DayOf(r), tod);
    MidnightBounds(t);
    var j := DayOf(t) - today;
    assert t == Midnight(today + j) + tod;
    assert 0 <= j < DayOf(r) - today;
    assert !Hit(targets, today, tod, now, j);
  }

  /** WEEKLY: with a non-empty day list the next run is the first time
      strictly after `now` that falls on a listed weekday at the schedule's
      time, and it lies at most seven days ahead. With an empty list it is
      today's date plus seven days at that time. */
  lemma WeeklyNextRun(c: ScheduleConfig, now: int)
    requires c.kind == Weekly && TimePattern(c.time) && c.weekdays.Some?
    ensures var r := NextRun(c, now); var tod := SecondsOfDay(c.time).value;
      var targets := Targets(c.weekdays.value);
      r.Some? && r.value % 86400 == tod &&
      (c.weekdays.value != [] ==>
         now < r.value <= now + 7 * 86400 && Weekday(DayOf(r.value)) in targets &&
         (forall t :: now < t < r.value && t % 86400 == tod ==> Weekday(DayOf(t)) !in targets)) &&
      (c.weekdays.value == [] ==> r.value == Midnight(DayOf(now) + 7) + tod)
  {
    var tod := SecondsOfDay(c.time).value;
    var today := DayOf(now);
    var targets := Targets(c.weekdays.value);
    MidnightBounds(now);
    WeeklySearchFacts(targets, today, tod, now, 0);
    var r := WeeklySearch(targets, today, tod, now, 0);
    assert NextRun(c, now) == Some(r);
    if c.weekdays.value != [] {
      WeeklySearchWindow(targets, today, tod, now);
      forall t | now < t < r && t % 86400 == tod
        ensures Weekday(DayOf(t)) !in targets
      {
        WeeklySearchFirst(targets, today, tod, now, t);
      }
    } else {
      assert r == Midnight(today + 7) + tod;
    }
  }

  /** HOURLY: `interval_hours` after `now`, not aligned to the schedule's
      time. CUSTOM: tomorrow at the schedule's time. */
  lemma HourlyAndCustomNextRun(c: ScheduleConfig, now: int)
    requires TimePattern(c.time)
    ensures c.kind == Hourly && c.intervalHours.Some? ==>
      NextRun(c, now) == Some(now + c.intervalHours.value * 3600)
    ensures c.kind == Custom ==>
      var r := NextRun(c, now);
      r.Some? && DayOf(r.value) == DayOf(now) + 1 && r.value % 86400 == SecondsOfDay(c.time).value &&
      now < r.value < now + 2 * 86400
  {
    MidnightBounds(now);
    TimeOnDay(DayOf(now) + 1, SecondsOfDay(c.time).value);
  }

  // ---------------------------------------------------------------------
  // The scheduler's state
  // ---------------------------------------------------------------------

  datatype Store = Store(schedules: map<Id, ScheduleConfig>, logs: seq<ExecutionLog>, nextId: nat)

  /** Every schedule is stored under its own id, and ids are below the next
      fresh one. */
  predicate StoreValid(st: Store)
  {
    forall k :: k in st.schedules ==> k < st.nextId && st.schedules[k].id == k
  }

  /** `list_schedules`: the table's values in insertion order. */
  function ListSchedules(st: Store): seq<ScheduleConfig>
  {
    InKeyOrder(st.schedules, st.schedules.Keys, st.nextId)
  }

  /** The list holds exactly the stored schedules, in strictly increasing id
      order (so without repetition). */
  lemma {:induction false} ListSchedulesFacts(st: Store, n: nat)
    requires StoreValid(st) && n <= st.nextId
    ensures forall x :: x in InKeyOrder(st.schedules, st.schedules.Keys, n) <==>
      exists k :: k in st.schedules && k < n && st.schedules[k] == x
    ensures forall i, j :: 0 <= i < j < |InKeyOrder(st.schedules, st.schedules.Keys, n)| ==>
      InKeyOrder(st.schedules, st.schedules.Keys, n)[i].id < InKeyOrder(st.schedules, st.schedules.Keys, n)[j].id
    ensures forall i :: 0 <= i < |InKeyOrder(st.schedules, st.schedules.Keys, n)| ==>
      var x := InKeyOrder(st.schedules, st.schedules.Keys, n)[i];
      x.id < n && x.id in st.schedules && st.schedules[x.id] == x
  {
    InKeyOrderMembers(st.schedules, st.schedules.Keys, n);
    if n > 0 {
      ListSchedulesFacts(st, n - 1);
      var p := InKeyOrder(st.schedules, st.schedules.Keys, n - 1);
      var l := InKeyOrder(st.schedules, st.schedules.Keys, n);
      if n - 1 in st.schedules {
        assert l == p + [st.schedules[n - 1]];
        assert l[|p|].id == n - 1;
      } else {
        assert l == p;
      }
    }
  }

  /** `get_schedule` */
  function GetSchedule(st: Store, id: Id): (r: Option<ScheduleConfig>)
    ensures r.Some? <==> id in st.schedules
    ensures r.Some? ==> r.value == st.schedules[id]
  {
    if id in st.schedules then Some(st.schedules[id]) else None
  }

  // ---------------------------------------------------------------------
  // Timer registration
  // ---------------------------------------------------------------------

  /** One job handed to the timer library. */
  datatype Job =
    | DailyJob(scheduleId: Id, at: string)
    | WeeklyJob(scheduleId: Id, day: WeekDay, at: string)
    | HourlyJob(scheduleId: Id, every: Option<int>)

  /** The jobs `_setup_scheduler` registers for one schedule; `None` where
      it raises (an active weekly schedule without a day list). */
  function JobsOf(c: ScheduleConfig): Option<seq<Job>>
  {
    if c.status != Active then Some([])
    else match c.kind
      case Daily => Some([DailyJob(c.id, c.time)])
      case Weekly =>
        if c.weekdays.None? then None
        else Some(seq(|c.weekdays.value|, k requires 0 <= k < |c.weekdays.value| =>
                      WeeklyJob(c.id, c.weekdays.value[k], c.time)))
      case Hourly => Some([HourlyJob(c.id, c.intervalHours)])
      case Custom => Some([])
  }

  /** The jobs registered for a list of schedules, in list order. */
  function Registered(cs: seq<ScheduleConfig>): Option<seq<Job>>
  {
    if cs == [] then Some([])
    else
      var front := Registered(cs[..|cs| - 1]);
      var last := JobsOf(cs[|cs| - 1]);
      if front.None? || last.None? then None else Some(front.value + last.value)
  }

  predicate JobOf(j: Job, c: ScheduleConfig)
  {
    j.scheduleId == c.id && c.status == Active && c.kind != Custom &&
    (j.DailyJob? ==> c.kind == Daily && j.at == c.time) &&
    (j.WeeklyJob? ==> c.kind == Weekly && c.weekdays.Some? && j.day in c.weekdays.value && j.at == c.time) &&
    (j.HourlyJob? ==> c.kind == Hourly && j.every == c.intervalHours)
  }

  /** Registration fails exactly when some listed active weekly schedule has
      no day list. Otherwise every job belongs to an active, non-custom
      schedule of the list and matches its type, time and interval; an
      active daily or hourly schedule has exactly one job and an active
      weekly one a job per listed day. Custom and non-active schedules
      get none. */
  lemma RegisteredFacts(cs: seq<ScheduleConfig>)
    ensures Registered(cs).None? <==>
      exists i :: 0 <= i < |cs| && cs[i].status == Active && cs[i].kind == Weekly && cs[i].weekdays.None?
    ensures Registered(cs).Some? ==>
      var js := Registered(cs).value;
      (forall j :: j in js ==> exists i :: 0 <= i < |cs| && JobOf(j, cs[i])) &&
      (forall i :: 0 <= i < |cs| && cs[i].status == Active && cs[i].kind == Daily ==>
         DailyJob(cs[i].id, cs[i].time) in js) &&
      (forall i :: 0 <= i < |cs| && cs[i].status == Active && cs[i].kind == Hourly ==>
         HourlyJob(cs[i].id, cs[i].intervalHours) in js) &&
      (forall i, d :: 0 <= i < |cs| && cs[i].status == Active && cs[i].kind == Weekly && d in cs[i].weekdays.value ==>
         WeeklyJob(cs[i].id, d, cs[i].time) in js)
  {
    RegisteredFails(cs);
    if Registered(cs).Some? {
      RegisteredJobsBelong(cs);
      RegisteredJobsPresent(cs);
    }
  }

  lemma {:induction false} RegisteredFails(cs: seq<ScheduleConfig>)
    ensures Registered(cs).None? <==>
      exists i :: 0 <= i < |cs| && cs[i].status == Active && cs[i].kind == Weekly && cs[i].weekdays.None?
  {
    if cs != [] {
      var front := cs[..|cs| - 1];
      var c := cs[|cs| - 1];
      RegisteredFails(front);
      assert forall i :: 0 <= i < |front| ==> front[i] == cs[i];
      if Registered(front).None? {
        var i :| 0 <= i < |front| && front[i].status == Active && front[i].kind == Weekly && front[i].weekdays.None?;
        assert cs[i] == front[i];
      }
    }
  }

  lemma {:induction false} RegisteredJobsBelong(cs: seq<ScheduleConfig>)
    requires Registered(cs).Some?
    ensures forall j :: j in Registered(cs).value ==> exists i :: 0 <= i < |cs| && JobOf(j, cs[i])
  {
    if cs != [] {
      var front := cs[..|cs| - 1];
      var c := cs[|cs| - 1];
      RegisteredJobsBelong(front);
      var js := Registered(cs).value;
      var fj := Registered(front).value;
      var lj := JobsOf(c).value;
      assert js == fj + lj;
      forall j | j in js
        ensures exists i :: 0 <= i < |cs| && JobOf(j, cs[i])
      {
        if j in fj {
          var i :| 0 <= i < |front| && JobOf(j, front[i]);
          assert cs[i] == front[i];
        } else {
          assert j in lj;
          if c.kind == Weekly {
            var k :| 0 <= k < |c.weekdays.value| && j == WeeklyJob(c.id, c.weekdays.value[k], c.time);
          }
          assert JobOf(j, cs[|cs| - 1]);
        }
      }
    }
  }

  lemma {:induction false} RegisteredJobsPresent(cs: seq<ScheduleConfig>)
    requires Registered(cs).Some?
    ensures var js := Registered(cs).value;
      (forall i :: 0 <= i < |cs| && cs[i].status == Active && cs[i].kind == Daily ==>
         DailyJob(cs[i].id, cs[i].time) in js) &&
      (forall i :: 0 <= i < |cs| && cs[i].status == Active && cs[i].kind == Hourly ==>
         HourlyJob(cs[i].id, cs[i].intervalHours) in js) &&
      (forall i, d :: 0 <= i < |cs| && cs[i].status == Active && cs[i].kind == Weekly && cs[i].weekdays.Some? && d in cs[i].weekdays.value ==>
         WeeklyJob(cs[i].id, d, cs[i].time) in js)
  {
    if cs != [] {
      var front := cs[..|cs| - 1];
      var c := cs[|cs| - 1];
      RegisteredJobsPresent(front);
      var js := Registered(cs).value;
      var fj := Registered(front).value;
      var lj := JobsOf(c).value;
      assert js == fj + lj;
      forall i, d | 0 <= i < |cs| && cs[i].status == Active && cs[i].kind == Weekly && cs[i].weekdays.Some? && d in cs[i].weekdays.value
        ensures WeeklyJob(cs[i].id, d, cs[i].time) in js
      {
        if i == |cs| - 1 {
          var k :| 0 <= k < |c.weekdays.value| && c.weekdays.value[k] == d;
          assert lj[k] == WeeklyJob(c.id, d, c.time);
        } else {
          assert front[i] == cs[i];
        }
      }
      forall i | 0 <= i < |cs| && cs[i].status == Active && cs[i].kind == Daily
        ensures DailyJob(cs[i].id, cs[i].time) in js
      {
        if i < |cs| - 1 { assert front[i] == cs[i]; }
      }
      forall i | 0 <= i < |cs| && cs[i].status == Active && cs[i].kind == Hourly
        ensures HourlyJob(cs[i].id, cs[i].intervalHours) in js
      {
        if i < |cs| - 1 { assert front[i] == cs[i]; }
      }
    }
  }

  // ---------------------------------------------------------------------
  // Operations
  // ---------------------------------------------------------------------

  /** The text of the exceptions the model does not spell out: Python's own
      messages for a failed validation or a failed computation. */
  const ValidationFailed := "schedule validation failed"
  const NextRunFailed := "next run could not be computed"
  const SetupFailed := "timer registration failed"

  /** `create_schedule`: the record is validated again, its next run is
      computed, it is stored under a fresh id, and the timer is set up
      again; a failure of that last step is reported after the schedule
      has been stored. */
  function Created(st: Store, q: ScheduleCreate, now: int): (Result<ScheduleConfig>, Store)
  {
    if !ScheduleCreateValid(q) || !ValidatorsAccept(q.kind, q.weekdays, q.intervalHours) then
      (Err(500, ValidationFailed), st)
    else
      var c := NewSchedule(st.nextId, q, now);
      var c' := c.(nextRun := NextRun(c, now));
      var st' := st.(schedules := st.schedules[st.nextId := c'], nextId := st.nextId + 1);
      (if Registered(ListSchedules(st')).None? then Err(500, SetupFailed) else Ok(c'), st')
  }

  /** `update_schedule`: 404 for an unknown id. Otherwise every supplied
      field is set and `updated_at` refreshed, then `next_run` recomputed;
      when that raises, the assignments already made stay in place. */
  function Updated(st: Store, id: Id, u: ScheduleUpdate, now: int): (Result<ScheduleConfig>, Store)
  {
    if id !in st.schedules then (Err(404, NotFound), st)
    else
      var c := ApplyScheduleUpdate(st.schedules[id], u, now);
      var n := NextRun(c, now);
      if n.None? then (Err(500, NextRunFailed), st.(schedules := st.schedules[id := c]))
      else
        var c' := c.(nextRun := n);
        var st' := st.(schedules := st.schedules[id := c']);
        (if Registered(ListSchedules(st')).None? then Err(500, SetupFailed) else Ok(c'), st')
  }

  const NotFound := "排程不存在"

  /** `delete_schedule`: `false` for an unknown id; otherwise exactly that
      id is removed. */
  function Deleted(st: Store, id: Id): (Result<bool>, Store)
  {
    if id !in st.schedules then (Ok(false), st)
    else
      var st' := st.(schedules := st.schedules - {id});
      (if Registered(ListSchedules(st')).None? then Err(500, SetupFailed) else Ok(true), st')
  }

  /** Every operation keeps the table keyed by the records' own ids, under
      the fresh-id bound. */
  lemma OperationsPreserveValidity(st: Store, q: ScheduleCreate, id: Id, u: ScheduleUpdate, now: int)
    requires StoreValid(st)
    ensures StoreValid(Created(st, q, now).1)
    ensures StoreValid(Updated(st, id, u, now).1)
    ensures StoreValid(Deleted(st, id).1)
  {
  }

  /** A create that passes validation stores one new schedule under the old
      fresh id, ACTIVE with no run yet and a computed next run, and leaves
      every other schedule alone; one that fails validation changes
      nothing. */
  lemma CreatedFacts(st: Store, q: ScheduleCreate, now: int)
    requires StoreValid(st)
    ensures var (r, st') := Created(st, q, now);
      (ScheduleCreateValid(q) && ValidatorsAccept(q.kind, q.weekdays, q.intervalHours) ==>
         st'.schedules.Keys == st.schedules.Keys + {st.nextId} && st.nextId !in st.schedules &&
         st'.nextId == st.nextId + 1 && st'.logs == st.logs &&
         (forall k :: k in st.schedules ==> st'.schedules[k] == st.schedules[k]) &&
         var c := st'.schedules[st.nextId];
         c.id == st.nextId && c.status == Active && c.runCount == 0 && c.lastRun.None? &&
         c.nextRun.Some? && c.nextRun == NextRun(c, now) &&
         (r.Ok? ==> r.value == c)) &&
      (!(ScheduleCreateValid(q) && ValidatorsAccept(q.kind, q.weekdays, q.intervalHours)) ==>
         r.Err? && st' == st)
  {
    if ScheduleCreateValid(q) && ValidatorsAccept(q.kind, q.weekdays, q.intervalHours) {
      var c := NewSchedule(st.nextId, q, now);
      NextRunDefined(c, now);
      NextRunDependsOnTiming(c, c.(nextRun := NextRun(c, now)), now);
    }
  }

  /** An update of an unknown id is a 404 that changes nothing. On a known
      id only that schedule changes: it takes the supplied fields, and its
      `next_run` is recomputed when that succeeds. */
  lemma UpdatedFacts(st: Store, id: Id, u: ScheduleUpdate, now: int)
    ensures var (r, st') := Updated(st, id, u, now);
      (id !in st.schedules ==> r == Err(404, NotFound) && st' == st) &&
      (id in st.schedules ==>
         var c := ApplyScheduleUpdate(st.schedules[id], u, now);
         st'.schedules.Keys == st.schedules.Keys && st'.logs == st.logs && st'.nextId == st.nextId &&
         (forall k :: k in st.schedules && k != id ==> st'.schedules[k] == st.schedules[k]) &&
         (NextRun(c, now).Some? ==> st'.schedules[id] == c.(nextRun := NextRun(c, now))) &&
         (NextRun(c, now).None? ==> st'.schedules[id] == c && r == Err(500, NextRunFailed)) &&
         (r.Ok? ==> r.value == st'.schedules[id]))
  {
  }

  /** Deleting an unknown id reports `false` and changes nothing; deleting
      a known one removes exactly that id. */
  lemma DeletedFacts(st: Store, id: Id)
    ensures var (r, st') := Deleted(st, id);
      (id !in st.schedules ==> r == Ok(false) && st' == st) &&
      (id in st.schedules ==>
         r != Ok(false) && st'.schedules.Keys == st.schedules.Keys - {id} &&
         (forall k :: k in st'.schedules ==> st'.schedules[k] == st.schedules[k]) &&
         st'.logs == st.logs && st'.nextId == st.nextId)
  {
  }

  // ---------------------------------------------------------------------
  // Execution logs
  // ---------------------------------------------------------------------

  function OfSchedule(id: Id): ExecutionLog -> bool
  {
    (l: ExecutionLog) => l.scheduleId == id
  }

  function LogsOf(logs: seq<ExecutionLog>, id: Id): seq<ExecutionLog>
  {
    Filter(logs, OfSchedule(id))
  }

  /** `get_execution_logs`: that schedule's logs when an id is given, then
      the last `limit` of them. */
  function ExecutionLogs(st: Store, id: Option<Id>, limit: int): seq<ExecutionLog>
  {
    LastN(if id.Some? then LogsOf(st.logs, id.value) else st.logs, limit)
  }

  /** Only the given schedule's logs, in original order, as a suffix of at
      most `limit` of them; a `limit` of 0 returns them all. */
  lemma ExecutionLogsFacts(st: Store, id: Option<Id>, limit: int)
    ensures var all := if id.Some? then LogsOf(st.logs, id.value) else st.logs;
      var r := ExecutionLogs(st, id, limit);
      (id.Some? ==> forall l :: l in r ==> l.scheduleId == id.value && l in st.logs) &&
      (limit > 0 ==> |r| <= limit && |r| == Min(limit, |all|)) &&
      |r| <= |all| && r == all[|all| - |r|..] &&
      (limit == 0 ==> r == all)
  {
    var all := if id.Some? then LogsOf(st.logs, id.value) else st.logs;
    LastNShape(all, limit);
    if id.Some? {
      LogsOfMembers(st.logs, id.value);
    }
  }

  lemma LogsOfMembers(logs: seq<ExecutionLog>, id: Id)
    ensures forall l :: l in LogsOf(logs, id) ==> l.scheduleId == id && l in logs
  {
    FilterMembers(logs, OfSchedule(id));
  }

  /** `save_schedules` writes only the last 100 logs. */
  function PersistedLogs(st: Store): seq<ExecutionLog>
  {
    LastN(st.logs, 100)
  }

  lemma PersistedLogsFacts(st: Store)
    ensures |PersistedLogs(st)| == Min(100, |st.logs|)
    ensures PersistedLogs(st) == st.logs[|st.logs| - |PersistedLogs(st)|..]
    ensures |st.logs| <= 100 ==> PersistedLogs(st) == st.logs
  {
    LastNFacts(st.logs, 100);
  }

  // ---------------------------------------------------------------------
  // One run
  // ---------------------------------------------------------------------

  /** What the report attempt produced: the fields of the sender's result
      dictionary (`None` for an absent key), or the text of an exception
      raised while collecting, formatting or sending. */
  datatype RunOutcome =
    | Sent(success: Option<bool>, message: Option<string>, error: Option<string>, messageId: Option<string>)
    | Raised(reason: string)

  function FailureLog(id: Id, scheduleId: Id, start: int, error: string, elapsedMs: int): ExecutionLog
  {
    ExecutionLog(id, scheduleId, start, false, None, Some(error), Some(elapsedMs), None)
  }

  /** `_execute_schedule` then `_run_schedule_task` for schedule `id`,
      started at `start`; `now` is the clock when the next run is
      computed. */
  function Ran(st: Store, id: Id, start: int, elapsedMs: int, outcome: RunOutcome, now: int): Store
  {
    if id !in st.schedules then st
    else
      var c := st.schedules[id];
      var n := st.nextId;
      match outcome
      case Raised(e) =>
        st.(logs := st.logs + [FailureLog(n, id, start, e, elapsedMs)], nextId := n + 1)
      case Sent(success, message, error, messageId) =>
        var log := ExecutionLog(n, id, start, Pick(success, false), Some(Pick(message, "")), error,
                                Some(elapsedMs), messageId);
        var c1 := c.(lastRun := Some(start));
        var next := NextRun(c1, now);
        if next.Some? then
          st.(schedules := st.schedules[id := c1.(nextRun := next, runCount := c.runCount + 1)],
              logs := st.logs + [log], nextId := n + 1)
        else
          st.(schedules := st.schedules[id := c1],
              logs := st.logs + [log, FailureLog(n + 1, id, start, NextRunFailed, elapsedMs)],
              nextId := n + 2)
  }

  /** The bookkeeping of a run. A run of an unknown id does nothing. A run
      whose send completed appends one log carrying the reported success
      (false when absent), sets `last_run` to the start time, counts the run
      and recomputes `next_run`, whatever the send reported; if the next run
      cannot be computed a second, failed log follows and the run is not
      counted. A run that raised appends one failed log and leaves the
      schedule as it was. No other schedule changes, and earlier logs are
      kept. */
  lemma RanFacts(st: Store, id: Id, start: int, elapsedMs: int, outcome: RunOutcome, now: int)
    ensures var st' := Ran(st, id, start, elapsedMs, outcome, now);
      (id !in st.schedules ==> st' == st) &&
      (id in st.schedules ==>
         var c := st.schedules[id];
         var c' := st'.schedules[id];
         st'.schedules.Keys == st.schedules.Keys &&
         (forall k :: k in st.schedules && k != id ==> st'.schedules[k] == st.schedules[k]) &&
         |st'.logs| > |st.logs| && st'.logs[..|st.logs|] == st.logs &&
         (forall l :: l in st'.logs[|st.logs|..] ==> l.scheduleId == id && l.executedAt == start) &&
         (outcome.Raised? ==>
            c' == c && |st'.logs| == |st.logs| + 1 && !st'.logs[|st.logs|].success &&
            st'.logs[|st.logs|].error == Some(outcome.reason)) &&
         (outcome.Sent? ==>
            c'.lastRun == Some(start) && st'.logs[|st.logs|].success == Pick(outcome.success, false) &&
            (NextRun(c, now).Some? ==>
               |st'.logs| == |st.logs| + 1 && c'.runCount == c.runCount + 1 && c'.nextRun == NextRun(c, now)) &&
            (NextRun(c, now).None? ==>
               |st'.logs| == |st.logs| + 2 && !st'.logs[|st.logs| + 1].success &&
               c'.runCount == c.runCount && c'.nextRun == c.nextRun)))
  {
    if id in st.schedules {
      var c := st.schedules[id];
      NextRunDependsOnTiming(c, c.(lastRun := Some(start)), now);
    }
  }

  // ---------------------------------------------------------------------
  // The scheduler object
  // ---------------------------------------------------------------------

  class ReportScheduler {
    var schedules: map<Id, ScheduleConfig>
    var logs: seq<ExecutionLog>
    var nextId: nat
    var running: bool

    function State(): Store
      reads this
    {
      Store(schedules, logs, nextId)
    }

    ghost predicate Valid()
      reads this
    {
      StoreValid(State())
    }

    /** A scheduler with no stored configuration. */
    constructor ()
      ensures State() == Store(map[], [], 0) && !running && Valid()
    {
      schedules := map[];
      logs := [];
      nextId := 0;
      running := false;
    }

    /** `_setup_scheduler`: the jobs for the listed schedules, in list
        order, stopping at the first one that raises. */
    method SetupScheduler() returns (jobs: Option<seq<Job>>)
      ensures jobs == Registered(ListSchedules(State()))
    {
      var cs := InKeyOrder(schedules, schedules.Keys, nextId);
      var acc: seq<Job> := [];
      var i := 0;
      while i < |cs|
        invariant 0 <= i <= |cs|
        invariant Registered(cs[..i]) == Some(acc)
      {
        var c := cs[i];
        assert cs[..i + 1][..i] == cs[..i] && cs[..i + 1][i] == c;
        if c.status != Active {
        } else if c.kind == Daily {
          acc := acc + [DailyJob(c.id, c.time)];
        } else if c.kind == Weekly {
          if c.weekdays.None? {
            RegisteredFacts(cs);
            return None;
          }
          var k := 0;
          var ws := c.weekdays.value;
          var before := acc;
          while k < |ws|
            invariant 0 <= k <= |ws|
            invariant acc == before + seq(k, m requires 0 <= m < k => WeeklyJob(c.id, ws[m], c.time))
          {
            acc := acc + [WeeklyJob(c.id, ws[k], c.time)];
            k := k + 1;
          }
          assert JobsOf(c).value == seq(|ws|, m requires 0 <= m < |ws| => WeeklyJob(c.id, ws[m], c.time));
        } else if c.kind == Hourly {
          acc := acc + [HourlyJob(c.id, c.intervalHours)];
        }
        assert JobsOf(c).Some? && Registered(cs[..i]).Some?;
        assert Registered(cs[..i + 1]) == Some(Registered(cs[..i]).value + JobsOf(c).value);
        assert acc == Registered(cs[..i]).value + JobsOf(c).value;
        i := i + 1;
      }
      assert cs[..|cs|] == cs;
      jobs := Some(acc);
    }

    method CreateSchedule(q: ScheduleCreate, now: int) returns (r: Result<ScheduleConfig>)
      modifies this
      ensures (r, State()) == Created(old(State()), q, now)
    {
      if !ScheduleCreateValid(q) || !ValidatorsAccept(q.kind, q.weekdays, q.intervalHours) {
        return Err(500, ValidationFailed);
      }
      var c := NewSchedule(nextId, q, now);
      c := c.(nextRun := NextRun(c, now));
      schedules := schedules[nextId := c];
      nextId := nextId + 1;
      var jobs := SetupScheduler();
      r := if jobs.None? then Err(500, SetupFailed) else Ok(c);
    }

    method UpdateSchedule(id: Id, u: ScheduleUpdate, now: int) returns (r: Result<ScheduleConfig>)
      modifies this
      ensures (r, State()) == Updated(old(State()), id, u, now)
    {
      if id !in schedules {
        return Err(404, NotFound);
      }
      var c := ApplyScheduleUpdate(schedules[id], u, now);
      var n := NextRun(c, now);
      if n.None? {
        schedules := schedules[id := c];
        return Err(500, NextRunFailed);
      }
      c := c.(nextRun := n);
      schedules := schedules[id := c];
      var jobs := SetupScheduler();
      r := if jobs.None? then Err(500, SetupFailed) else Ok(c);
    }

    method DeleteSchedule(id: Id) returns (r: Result<bool>)
      modifies this
      ensures (r, State()) == Deleted(old(State()), id)
    {
      if id !in schedules {
        return Ok(false);
      }
      schedules := schedules - {id};
      var jobs := SetupScheduler();
      r := if jobs.None? then Err(500, SetupFailed) else Ok(true);
    }

    method RunScheduleTask(id: Id, start: int, elapsedMs: int, outcome: RunOutcome, now: int)
      modifies this
      ensures State() == Ran(old(State()), id, start, elapsedMs, outcome, now)
      ensures running == old(running)
    {
      if id !in schedules {
        return;
      }
      var c := schedules[id];
      var n := nextId;
      match outcome {
        case Raised(e) =>
          logs := logs + [FailureLog(n, id, start, e, elapsedMs)];
          nextId := n + 1;
        case Sent(success, message, error, messageId) =>
          logs := logs + [ExecutionLog(n, id, start, Pick(success, false), Some(Pick(message, "")), error,
                                       Some(elapsedMs), messageId)];
          nextId := n + 1;
          c := c.(lastRun := Some(start));
          schedules := schedules[id := c];
          var next := NextRun(c, now);
          if next.Some? {
            c := c.(nextRun := next, runCount := c.runCount + 1);
            schedules := schedules[id := c];
          } else {
            logs := logs + [FailureLog(n + 1, id, start, NextRunFailed, elapsedMs)];
            nextId := n + 2;
          }
      }
    }

    /** `start`: a second start while running does nothing. */
    method Start() returns (jobs: Option<seq<Job>>)
      modifies this
      ensures running && State() == old(State())
      ensures !old(running) ==> jobs == Registered(ListSchedules(State()))
      ensures old(running) ==> jobs.None?
    {
      if running {
        return None;
      }
      running := true;
      jobs := SetupScheduler();
    }

    method Stop()
      modifies this
      ensures !running && State() == old(State())
    {
      running := false;
    }
  }
}
