/**
 * The schedule HTTP routes: request validation (422), unknown ids (404),
 * pause and resume as status-only updates, the log views, and the
 * overview with its status counts and the next five executions.
 */
module ScheduleRoutes {
  import opened Common
  import opened ScheduleModels
  import opened Scheduler
  import Sorting

  /** `GET /{schedule_id}` */
  function GetScheduleRoute(st: Store, id: Id): (r: Result<ScheduleConfig>)
    ensures r.Ok? <==> id in st.schedules
    ensures r.Ok? ==> r.value == st.schedules[id]
    ensures r.Err? ==> r == Err(404, NotFound)
  {
    if id in st.schedules then Ok(st.schedules[id]) else Err(404, NotFound)
  }

  /** `POST /`: the request model's field checks, then the scheduler. */
  function CreateScheduleRoute(st: Store, q: ScheduleCreate, now: int): (Result<ScheduleConfig>, Store)
  {
    if !ScheduleCreateValid(q) then (Err(422, "request validation failed"), st)
    else Created(st, q, now)
  }

  /** `PUT /{schedule_id}`: null fields are already absent from `u`. */
  function UpdateScheduleRoute(st: Store, id: Id, u: ScheduleUpdate, now: int): (Result<ScheduleConfig>, Store)
  {
    if !ScheduleUpdateValid(u) then (Err(422, "request validation failed"), st)
    else Updated(st, id, u, now)
  }

  /** `DELETE /{schedule_id}` */
  function DeleteScheduleRoute(st: Store, id: Id): (Result<Id>, Store)
  {
    var (r, st') := Deleted(st, id);
    (if r == Ok(false) then Err(404, NotFound) else if r.Err? then Err(r.status, r.message) else Ok(id), st')
  }

  /** `POST /{schedule_id}/execute`: accepted for a known id; the run
      itself is `Ran`, performed later in the background. */
  function ExecuteScheduleRoute(st: Store, id: Id): (r: Result<Id>)
    ensures r.Ok? <==> id in st.schedules
    ensures r.Err? ==> r.status == 404
  {
    if id in st.schedules then Ok(id) else Err(404, NotFound)
  }

  function PauseScheduleRoute(st: Store, id: Id, now: int): (Result<ScheduleConfig>, Store)
  {
    Updated(st, id, StatusOnly(Paused), now)
  }

  function ResumeScheduleRoute(st: Store, id: Id, now: int): (Result<ScheduleConfig>, Store)
  {
    Updated(st, id, StatusOnly(Active), now)
  }

  /** `GET /{schedule_id}/logs` */
  function ScheduleLogsRoute(st: Store, id: Id, limit: int): Result<seq<ExecutionLog>>
  {
    if id !in st.schedules then Err(404, NotFound) else Ok(ExecutionLogs(st, Some(id), limit))
  }

  /** `GET /logs/all` */
  function AllLogsRoute(st: Store, limit: int): seq<ExecutionLog>
  {
    ExecutionLogs(st, None, limit)
  }

  /** Every route that names a schedule answers 404 for an unknown id and
      then leaves the scheduler as it was. */
  lemma UnknownScheduleIsNotFound(st: Store, id: Id, u: ScheduleUpdate, limit: int, now: int)
    requires id !in st.schedules
    ensures GetScheduleRoute(st, id) == Err(404, NotFound)
    ensures ScheduleUpdateValid(u) ==> UpdateScheduleRoute(st, id, u, now) == (Err(404, NotFound), st)
    ensures DeleteScheduleRoute(st, id) == (Err(404, NotFound), st)
    ensures ExecuteScheduleRoute(st, id) == Err(404, NotFound)
    ensures PauseScheduleRoute(st, id, now) == (Err(404, NotFound), st)
    ensures ResumeScheduleRoute(st, id, now) == (Err(404, NotFound), st)
    ensures ScheduleLogsRoute(st, id, limit) == Err(404, NotFound)
  {
  }

  /** A status-only update of a known schedule sets exactly the status,
      refreshes `updated_at` and recomputes `next_run` when that succeeds;
      every other field and every other schedule is kept. Pause and resume
      are this update with PAUSED and ACTIVE. */
  lemma SetStatusFacts(st: Store, id: Id, s: ScheduleStatus, now: int)
    requires id in st.schedules
    ensures var (_, st') := Updated(st, id, StatusOnly(s), now);
      var c := st.schedules[id];
      st'.schedules.Keys == st.schedules.Keys &&
      (forall k :: k in st.schedules && k != id ==> st'.schedules[k] == st.schedules[k]) &&
      (NextRun(c, now).Some? ==> st'.schedules[id] == c.(status := s, updatedAt := now, nextRun := NextRun(c, now))) &&
      (NextRun(c, now).None? ==> st'.schedules[id] == c.(status := s, updatedAt := now))
  {
    var c := st.schedules[id];
    StatusOnlyUpdate(c, s, now);
    NextRunDependsOnTiming(c, c.(status := s, updatedAt := now), now);
  }

  lemma PauseResumeAreStatusUpdates(st: Store, id: Id, now: int)
    ensures PauseScheduleRoute(st, id, now) == Updated(st, id, StatusOnly(Paused), now)
    ensures ResumeScheduleRoute(st, id, now) == Updated(st, id, StatusOnly(Active), now)
    ensures id in st.schedules ==>
      PauseScheduleRoute(st, id, now).1.schedules[id].status == Paused &&
      ResumeScheduleRoute(st, id, now).1.schedules[id].status == Active
  {
    if id in st.schedules {
      SetStatusFacts(st, id, Paused, now);
      SetStatusFacts(st, id, Active, now);
    }
  }

  // ---------------------------------------------------------------------
  // Overview
  // ---------------------------------------------------------------------

  datatype NextExecution = NextExecution(scheduleId: Id, scheduleName: string, nextRun: int, kind: ScheduleType)

  datatype Overview = Overview(
    totalSchedules: nat,
    activeSchedules: nat,
    pausedSchedules: nat,
    inactiveSchedules: nat,
    recentLogs: seq<ExecutionLog>,
    nextExecutions: seq<NextExecution>,
    schedulerRunning: bool)

  function HasStatus(s: ScheduleStatus): ScheduleConfig -> bool
  {
    (c: ScheduleConfig) => c.status == s
  }

  /** The entry an active schedule with a next run contributes. */
  function UpcomingOf(c: ScheduleConfig): Option<NextExecution>
  {
    if c.status == Active && c.nextRun.Some? then Some(NextExecution(c.id, c.name, c.nextRun.value, c.kind)) else None
  }

  /** The active schedules that have a next run, in list order. */
  function Upcoming(cs: seq<ScheduleConfig>): seq<NextExecution>
  {
    FilterMap(cs, UpcomingOf)
  }

  /** Every entry is an active schedule's next run, and every active
      schedule with a next run has its entry. */
  lemma UpcomingFacts(cs: seq<ScheduleConfig>)
    ensures forall e :: e in Upcoming(cs) ==> exists i :: (0 <= i < |cs| &&
      cs[i].id == e.scheduleId && cs[i].status == Active && cs[i].nextRun == Some(e.nextRun))
    ensures forall i :: 0 <= i < |cs| && cs[i].status == Active && cs[i].nextRun.Some? ==>
      NextExecution(cs[i].id, cs[i].name, cs[i].nextRun.value, cs[i].kind) in Upcoming(cs)
  {
    FilterMapMembers(cs, UpcomingOf);
    forall e | e in Upcoming(cs)
      ensures exists i :: (0 <= i < |cs| &&
        cs[i].id == e.scheduleId && cs[i].status == Active && cs[i].nextRun == Some(e.nextRun))
    {
      var i :| 0 <= i < |cs| && UpcomingOf(cs[i]) == Some(e);
    }
    forall i | 0 <= i < |cs| && cs[i].status == Active && cs[i].nextRun.Some?
      ensures NextExecution(cs[i].id, cs[i].name, cs[i].nextRun.value, cs[i].kind) in Upcoming(cs)
    {
      assert UpcomingOf(cs[i]) == Some(NextExecution(cs[i].id, cs[i].name, cs[i].nextRun.value, cs[i].kind));
    }
  }

  function RunKey(e: NextExecution): Sorting.SortKey
  {
    Sorting.Num(e.nextRun as real)
  }

  /** `GET /status/overview` */
  function GetScheduleOverview(st: Store, running: bool): Overview
  {
    var cs := ListSchedules(st);
    Overview(|cs|, Count(cs, HasStatus(Active)), Count(cs, HasStatus(Paused)), Count(cs, HasStatus(Inactive)),
             ExecutionLogs(st, None, 10), Soonest(Upcoming(cs)), running)
  }

  /** The three status counts partition any list of schedules. */
  lemma {:induction false} StatusCountsPartition(cs: seq<ScheduleConfig>)
    ensures Count(cs, HasStatus(Active)) + Count(cs, HasStatus(Paused)) + Count(cs, HasStatus(Inactive)) == |cs|
  {
    if cs != [] {
      StatusCountsPartition(cs[1..]);
    }
  }

  /** The counts add up to the total, the recent logs are the last ten,
      and the running flag is reported as it is. */
  lemma OverviewCounts(st: Store, running: bool)
    ensures var o := GetScheduleOverview(st, running);
      o.activeSchedules + o.pausedSchedules + o.inactiveSchedules == o.totalSchedules &&
      o.totalSchedules == |ListSchedules(st)| &&
      o.recentLogs == LastN(st.logs, 10) && o.schedulerRunning == running
  {
    StatusCountsPartition(ListSchedules(st));
  }

  /** The first five of a list sorted by next run. */
  function Soonest(up: seq<NextExecution>): seq<NextExecution>
  {
    Take(Sorting.SortBy(up, RunKey, false), 5)
  }

  lemma SoonestFacts(up: seq<NextExecution>)
    ensures |Soonest(up)| <= 5
    ensures forall e :: e in Soonest(up) ==> e in up
    ensures forall j, k :: 0 <= j < k < |Soonest(up)| ==> Soonest(up)[j].nextRun <= Soonest(up)[k].nextRun
    ensures |up| <= 5 ==> multiset(Soonest(up)) == multiset(up)
  {
    var sorted := Sorting.SortBy(up, RunKey, false);
    var next := Soonest(up);
    assert next == sorted[..Min(5, |up|)];
    forall e | e in next
      ensures e in up
    {
      assert e in multiset(sorted);
    }
    forall j, k | 0 <= j < k < |next|
      ensures next[j].nextRun <= next[k].nextRun
    {
      assert !Sorting.Before(RunKey, false, sorted[k], sorted[j]);
    }
    if |up| <= 5 {
      assert next == sorted;
    }
  }

  /** When more than five runs are upcoming, the soonest are kept: every
      upcoming run left out is due no sooner than every one listed. */
  lemma SoonestCutoff(up: seq<NextExecution>)
    ensures forall e, f :: e in up && e !in Soonest(up) && f in Soonest(up) ==> f.nextRun <= e.nextRun
  {
    assert Soonest(up) == Sorting.SortBy(up, RunKey, false)[..if 5 <= |up| then 5 else |up|];
    Sorting.SortedCutoff(up, RunKey, false, 5);
    forall e, f | e in up && e !in Soonest(up) && f in Soonest(up)
      ensures f.nextRun <= e.nextRun
    {
      assert !Sorting.Before(RunKey, false, e, f);
    }
  }

  /** At most five upcoming executions are listed, all of ACTIVE schedules
      with a next run, in ascending order of that run; when there are no
      more than five they are all listed. */
  lemma OverviewNextExecutions(st: Store, running: bool)
    ensures var n := GetScheduleOverview(st, running).nextExecutions; var cs := ListSchedules(st);
      |n| <= 5 &&
      (forall e :: e in n ==> exists i :: (0 <= i < |cs| &&
         cs[i].id == e.scheduleId && cs[i].status == Active && cs[i].nextRun == Some(e.nextRun))) &&
      (forall j, k :: 0 <= j < k < |n| ==> n[j].nextRun <= n[k].nextRun) &&
      (|Upcoming(cs)| <= 5 ==> multiset(n) == multiset(Upcoming(cs)))
  {
    var cs := ListSchedules(st);
    assert GetScheduleOverview(st, running).nextExecutions == Soonest(Upcoming(cs));
    SoonestFacts(Upcoming(cs));
    UpcomingFacts(cs);
  }

  /** An ACTIVE schedule with a next run that the overview leaves out is due
      no sooner than every execution it lists. */
  lemma OverviewSoonestCutoff(st: Store, running: bool)
    ensures var n := GetScheduleOverview(st, running).nextExecutions; var cs := ListSchedules(st);
      forall i, f ::
        (0 <= i < |cs| && cs[i].status == Active && cs[i].nextRun.Some? && f in n &&
         NextExecution(cs[i].id, cs[i].name, cs[i].nextRun.value, cs[i].kind) !in n) ==>
        f.nextRun <= cs[i].nextRun.value
  {
    var cs := ListSchedules(st);
    var up := Upcoming(cs);
    var n := GetScheduleOverview(st, running).nextExecutions;
    assert n == Soonest(up);
    SoonestCutoff(up);
    UpcomingFacts(cs);
  }
}
