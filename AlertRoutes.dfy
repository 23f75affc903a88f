/**
 * The alert HTTP routes: incident listing with status, level, time-window
 * and limit selection; the incident action dispatch; rule listing,
 * creation, update, deletion and toggling; and the alert metrics counts.
 *
 * Each route is a function from the engine's store (and the request) to a
 * result and, for the routes that change the engine, the new store; the
 * methods at the end apply those that change state to a live engine.
 * Query-parameter bounds rejected by the web framework are the 422 results.
 */
module AlertRoutes {
  import opened Common
  import opened AlertModels
  import opened AlertEngine
  import Sorting

  // ---------------------------------------------------------------------
  // GET /incidents
  // ---------------------------------------------------------------------

  predicate HoursInBounds(hours: int) { 1 <= hours <= 168 }

  predicate LimitInBounds(limit: int) { 1 <= limit <= 200 }

  function Cutoff(hours: int, now: int): int
  {
    now - hours * 3600
  }

  /** The incidents the listing draws from before sorting and truncation:
      the active table for status ACTIVE, otherwise the incidents of the
      last `hours`, narrowed to the requested status and level. */
  function Matching(st: Store, status: Option<Status>, level: Option<Level>, hours: int, now: int): seq<Incident>
  {
    var base :=
      if status == Some(Active) then InKeyOrder(st.incidents, st.active, st.nextId)
      else Filter(InKeyOrder(st.incidents, st.incidents.Keys, st.nextId), StartedFrom(Cutoff(hours, now)));
    var byStatus :=
      if status.Some? && status.value != Active then Filter(base, HasStatus(status.value))
      else base;
    if level.Some? then Filter(byStatus, HasLevel(level.value)) else byStatus
  }

  function HasStatus(s: Status): Incident -> bool
  {
    (i: Incident) => i.status == s
  }

  function HasLevel(l: Level): Incident -> bool
  {
    (i: Incident) => i.level == l
  }

  /** Status ACTIVE selects exactly the active table and ignores `hours`;
      any other status (or none) selects the incidents started within
      `hours` that carry it; the level filter applies on top. */
  lemma MatchingMembers(st: Store, status: Option<Status>, level: Option<Level>, hours: int, now: int, x: Incident)
    requires StoreValid(st)
    ensures x in Matching(st, status, level, hours, now) <==>
      (level.Some? ==> x.level == level.value) &&
      (if status == Some(Active) then exists i :: i in st.active && st.incidents[i] == x
       else x in st.incidents.Values && x.startedAt >= Cutoff(hours, now) &&
            (status.Some? ==> x.status == status.value))
  {
    var all := InKeyOrder(st.incidents, st.incidents.Keys, st.nextId);
    var base :=
      if status == Some(Active) then InKeyOrder(st.incidents, st.active, st.nextId)
      else Filter(all, StartedFrom(Cutoff(hours, now)));
    var byStatus :=
      if status.Some? && status.value != Active then Filter(base, HasStatus(status.value))
      else base;
    FilterMembers(all, StartedFrom(Cutoff(hours, now)));
    InKeyOrderMembers(st.incidents, st.incidents.Keys, st.nextId);
    InKeyOrderMembers(st.incidents, st.active, st.nextId);
    if status.Some? && status.value != Active {
      FilterMembers(base, HasStatus(status.value));
    }
    if level.Some? {
      FilterMembers(byStatus, HasLevel(level.value));
    }
    if x in st.incidents.Values {
      var i :| i in st.incidents && st.incidents[i] == x;
      assert i < st.nextId;
    }
  }

  function StartKey(i: Incident): Sorting.SortKey
  {
    Sorting.Num(i.startedAt as real)
  }

  /** `get_incidents` */
  function GetIncidents(st: Store, status: Option<Status>, level: Option<Level>, hours: int, limit: int,
                        now: int): Result<seq<Incident>>
  {
    if !HoursInBounds(hours) || !LimitInBounds(limit) then Err(422, "query parameter out of range")
    else Ok(Take(Sorting.SortBy(Matching(st, status, level, hours, now), StartKey, true), limit))
  }

  /** The listing is refused exactly when `hours` or `limit` is out of range;
      otherwise it holds only matching incidents, newest first, as many as
      match up to `limit`, and all of them when no more than `limit` match. */
  lemma GetIncidentsFacts(st: Store, status: Option<Status>, level: Option<Level>, hours: int, limit: int, now: int)
    ensures GetIncidents(st, status, level, hours, limit, now).Ok? <==> HoursInBounds(hours) && LimitInBounds(limit)
    ensures var r := GetIncidents(st, status, level, hours, limit, now);
      var m := Matching(st, status, level, hours, now);
      r.Ok? ==>
        (forall x :: x in r.value ==> x in m) &&
        (forall j, k :: 0 <= j < k < |r.value| ==> r.value[j].startedAt >= r.value[k].startedAt) &&
        |r.value| == Min(limit, |m|) &&
        (|m| <= limit ==> multiset(r.value) == multiset(m))
  {
    var m := Matching(st, status, level, hours, now);
    var r := GetIncidents(st, status, level, hours, limit, now);
    if r.Ok? {
      var sorted := Sorting.SortBy(m, StartKey, true);
      assert r.value == sorted[..if limit <= |m| then limit else |m|];
      Sorting.SortedPrefix(m, StartKey, true, limit);
      forall j, k | 0 <= j < k < |r.value| ensures r.value[j].startedAt >= r.value[k].startedAt {
        assert !Sorting.Before(StartKey, true, r.value[k], r.value[j]);
      }
    }
  }

  /** When more incidents match than `limit`, the newest are kept: every
      matching incident left out started no later than every one listed. */
  lemma GetIncidentsCutoff(st: Store, status: Option<Status>, level: Option<Level>, hours: int, limit: int, now: int)
    ensures var r := GetIncidents(st, status, level, hours, limit, now);
      var m := Matching(st, status, level, hours, now);
      r.Ok? ==> forall p, q :: p in m && p !in r.value && q in r.value ==> p.startedAt <= q.startedAt
  {
    var m := Matching(st, status, level, hours, now);
    var r := GetIncidents(st, status, level, hours, limit, now);
    if r.Ok? {
      assert r.value == Sorting.SortBy(m, StartKey, true)[..if limit <= |m| then limit else |m|];
      Sorting.SortedCutoff(m, StartKey, true, limit);
      forall p, q | p in m && p !in r.value && q in r.value
        ensures p.startedAt <= q.startedAt
      {
        assert !Sorting.Before(StartKey, true, p, q);
      }
    }
  }

  /** `get_incident` */
  function GetIncident(st: Store, id: Id): (r: Result<Incident>)
    ensures r.Ok? <==> id in st.incidents
    ensures r.Ok? ==> r.value == st.incidents[id]
    ensures r.Err? ==> r.status == 404
  {
    if id !in st.incidents then Err(404, "incident not found") else Ok(st.incidents[id])
  }

  // ---------------------------------------------------------------------
  // POST /incidents/{id}/action
  // ---------------------------------------------------------------------

  datatype ActionTaken = DidAcknowledge | DidResolve | DidSuppress(minutes: int)

  /** `action.suppress_duration or 60`: an absent or zero duration is 60. */
  function SuppressMinutes(d: Option<int>): int
  {
    if d.Some? && d.value != 0 then d.value else 60
  }

  /** `incident_action`: 404 for an unknown incident, 400 for an unknown
      action, otherwise the lifecycle operation. */
  function IncidentAction(st: Store, id: Id, action: string, comment: Option<string>, duration: Option<int>,
                          now: int): (Result<ActionTaken>, Store)
  {
    if id !in st.incidents then (Err(404, "incident not found"), st)
    else if action == "acknowledge" then (Ok(DidAcknowledge), AfterAcknowledge(st, id, "web_user", comment, now))
    else if action == "resolve" then (Ok(DidResolve), AfterResolve(st, id, comment, now))
    else if action == "suppress" then
      var minutes := SuppressMinutes(duration);
      (Ok(DidSuppress(minutes)), AfterSuppress(st, id, minutes, now))
    else (Err(400, "invalid action"), st)
  }

  /** An unknown incident gives 404 and an unknown action 400, both with no
      change; a suppression without a (non-zero) duration lasts 60 minutes;
      a successful action keeps the store well formed and only resolve
      removes the incident from the active table. */
  lemma IncidentActionFacts(st: Store, id: Id, action: string, comment: Option<string>, duration: Option<int>, now: int)
    requires StoreValid(st)
    ensures var (r, st2) := IncidentAction(st, id, action, comment, duration, now);
      StoreValid(st2) &&
      (id !in st.incidents ==> r == Err(404, "incident not found") && st2 == st) &&
      (id in st.incidents && action !in {"acknowledge", "resolve", "suppress"} ==> r.Err? && r.status == 400 && st2 == st) &&
      (r.Ok? <==> id in st.incidents && action in {"acknowledge", "resolve", "suppress"}) &&
      (r.Ok? && action == "suppress" ==>
         st2.incidents[id].status == Suppressed &&
         st2.incidents[id].suppressedUntil == Some(now + SuppressMinutes(duration) * 60)) &&
      (action == "suppress" && (duration.None? || duration == Some(0)) ==> SuppressMinutes(duration) == 60) &&
      (r.Ok? ==> (st2.active == st.active - {id} <==> action == "resolve" || id !in st.active)) &&
      (r.Ok? && action != "resolve" ==> st2.active == st.active)
  {
    if id in st.incidents {
      if action == "acknowledge" {
        AcknowledgeFacts(st, id, "web_user", comment, now);
      } else if action == "resolve" {
        ResolveFacts(st, id, comment, now);
      } else if action == "suppress" {
        SuppressFacts(st, id, SuppressMinutes(duration), now);
      }
    }
  }

  // ---------------------------------------------------------------------
  // Rules
  // ---------------------------------------------------------------------

  function NameKey(r: Rule): Sorting.SortKey
  {
    Sorting.Text(r.name)
  }

  /** `get_alert_rules`: every rule, ordered by name. */
  function GetAlertRules(st: Store): seq<Rule>
  {
    Sorting.SortBy(InKeyOrder(st.rules, st.rules.Keys, st.nextId), NameKey, false)
  }

  /** The listing holds exactly the rules of the table, ordered by name. */
  lemma GetAlertRulesFacts(st: Store)
    requires StoreValid(st)
    ensures var r := GetAlertRules(st);
      (forall x :: x in r <==> x in st.rules.Values) &&
      Sorting.SortedBy(r, NameKey, false)
  {
    var all := InKeyOrder(st.rules, st.rules.Keys, st.nextId);
    var r := GetAlertRules(st);
    InKeyOrderMembers(st.rules, st.rules.Keys, st.nextId);
    forall x ensures x in r <==> x in st.rules.Values {
      assert x in r <==> x in multiset(r);
      assert x in all <==> x in multiset(all);
      if x in all {
        var i :| 0 <= i < st.nextId && i in st.rules.Keys && i in st.rules && st.rules[i] == x;
      }
      if x in st.rules.Values {
        var i :| i in st.rules && st.rules[i] == x;
        assert i < st.nextId;
      }
    }
  }

  /** `create_alert_rule`: a rule from a valid request under a fresh id. */
  function CreateAlertRule(st: Store, req: RuleCreate, now: int): (Result<Id>, Store)
  {
    if !RuleCreateValid(req) then (Err(422, "rule out of range"), st)
    else (Ok(st.nextId), st.(rules := st.rules[st.nextId := RuleFromCreate(st.nextId, req, now)],
                              nextId := st.nextId + 1))
  }

  /** An invalid request changes nothing; a valid one adds exactly one new,
      enabled rule under a fresh id and leaves the other rules alone. */
  lemma CreateAlertRuleFacts(st: Store, req: RuleCreate, now: int)
    requires StoreValid(st)
    ensures var (r, st2) := CreateAlertRule(st, req, now);
      StoreValid(st2) &&
      (r.Ok? <==> RuleCreateValid(req)) &&
      (r.Err? ==> st2 == st) &&
      (r.Ok? ==> r.value !in st.rules && st2.rules.Keys == st.rules.Keys + {r.value} &&
                 st2.rules[r.value].enabled && st2.rules[r.value].metric == req.metric &&
                 (forall j :: j in st.rules ==> st2.rules[j] == st.rules[j]) &&
                 st2.incidents == st.incidents && st2.active == st.active)
  {
  }

  /** `update_alert_rule`: the supplied fields of a valid update. */
  function UpdateAlertRule(st: Store, id: Id, u: RuleUpdate, now: int): (Result<Id>, Store)
  {
    if !RuleUpdateValid(u) then (Err(422, "update out of range"), st)
    else if id !in st.rules then (Err(404, "rule not found"), st)
    else (Ok(id), st.(rules := st.rules[id := ApplyRuleUpdate(st.rules[id], u, now)]))
  }

  /** An update cannot change what a rule watches: its metric, condition and
      category stay as they were; no other rule changes. */
  lemma UpdateAlertRuleFacts(st: Store, id: Id, u: RuleUpdate, now: int)
    requires StoreValid(st)
    ensures var (r, st2) := UpdateAlertRule(st, id, u, now);
      StoreValid(st2) && st2.rules.Keys == st.rules.Keys &&
      (r.Ok? <==> RuleUpdateValid(u) && id in st.rules) &&
      (RuleUpdateValid(u) && id !in st.rules ==> r.Err? && r.status == 404) &&
      (r.Err? ==> st2 == st) &&
      (r.Ok? ==> st2.rules[id].metric == st.rules[id].metric &&
                 st2.rules[id].condition == st.rules[id].condition &&
                 st2.rules[id].category == st.rules[id].category &&
                 st2.rules[id].updatedAt == now) &&
      (forall j :: j in st.rules && j != id ==> st2.rules[j] == st.rules[j])
  {
  }

  /** `delete_alert_rule` */
  function DeleteAlertRule(st: Store, id: Id): (Result<string>, Store)
  {
    if id !in st.rules then (Err(404, "rule not found"), st)
    else (Ok(st.rules[id].name), st.(rules := st.rules - {id}))
  }

  /** Deleting removes exactly that rule, and only an unknown id is refused. */
  lemma DeleteAlertRuleFacts(st: Store, id: Id)
    requires StoreValid(st)
    ensures var (r, st2) := DeleteAlertRule(st, id);
      StoreValid(st2) &&
      (r.Ok? <==> id in st.rules) &&
      (r.Err? ==> r.status == 404 && st2 == st) &&
      st2.rules.Keys == st.rules.Keys - {id} &&
      (forall j :: j in st2.rules ==> st2.rules[j] == st.rules[j]) &&
      st2.incidents == st.incidents && st2.active == st.active
  {
  }

  /** `toggle_alert_rule`: the result is the rule's new `enabled`. */
  function ToggleAlertRule(st: Store, id: Id, now: int): (Result<bool>, Store)
  {
    if id !in st.rules then (Err(404, "rule not found"), st)
    else
      var rule := st.rules[id];
      (Ok(!rule.enabled), st.(rules := st.rules[id := rule.(enabled := !rule.enabled, updatedAt := now)]))
  }

  /** Toggling flips `enabled` exactly once and refreshes `updated_at`. */
  lemma ToggleAlertRuleFacts(st: Store, id: Id, now: int, later: int)
    requires StoreValid(st)
    ensures var (r, st2) := ToggleAlertRule(st, id, now);
      StoreValid(st2) && st2.rules.Keys == st.rules.Keys &&
      (r.Ok? <==> id in st.rules) &&
      (r.Err? ==> r.status == 404 && st2 == st) &&
      (r.Ok? ==> st2.rules[id].enabled == !st.rules[id].enabled && r.value == st2.rules[id].enabled &&
                 st2.rules[id] == st.rules[id].(enabled := !st.rules[id].enabled, updatedAt := now)) &&
      (forall j :: j in st.rules && j != id ==> st2.rules[j] == st.rules[j])
  {
  }

  /** Toggling twice restores the rule apart from its `updated_at`. */
  lemma ToggleTwice(st: Store, id: Id, now: int, later: int)
    ensures var st3 := ToggleAlertRule(ToggleAlertRule(st, id, now).1, id, later).1;
      id in st.rules ==> st3.rules == st.rules[id := st.rules[id].(updatedAt := later)]
  {
    if id in st.rules {
      var rule := st.rules[id];
      var st2 := ToggleAlertRule(st, id, now).1;
      assert st2.rules == st.rules[id := rule.(enabled := !rule.enabled, updatedAt := now)];
      assert st2.rules[id].(enabled := !st2.rules[id].enabled, updatedAt := later) == rule.(updatedAt := later);
    }
  }

  // ---------------------------------------------------------------------
  // GET /metrics
  // ---------------------------------------------------------------------

  datatype AlertMetrics = AlertMetrics(
    totalRules: nat,
    enabledRules: nat,
    activeIncidents: nat,
    todayIncidents: nat,
    weekIncidents: nat,
    levelStatistics: map<Level, nat>,
    categoryStatistics: map<Category, nat>)

  function EnabledRules(st: Store): set<Id>
  {
    set r | r in st.rules && st.rules[r].enabled
  }

  function StartedSince(st: Store, t: int): set<Id>
  {
    set i | i in st.incidents && st.incidents[i].startedAt >= t
  }

  function ActiveWithLevel(st: Store, l: Level): set<Id>
  {
    set i | i in st.active && i in st.incidents && st.incidents[i].level == l
  }

  function ActiveWithCategory(st: Store, c: Category): set<Id>
  {
    set i | i in st.active && i in st.incidents && st.incidents[i].category == c
  }

  /** `get_alert_metrics`: today starts at midnight, the week 7 days ago;
      the statistics count the active incidents by level and by category. */
  function GetAlertMetrics(st: Store, now: int): AlertMetrics
  {
    AlertMetrics(
      |st.rules|,
      |EnabledRules(st)|,
      |st.active|,
      |StartedSince(st, DayStart(now))|,
      |StartedSince(st, now - 7 * 86400)|,
      map l | l in {Info, Warning, Critical, Emergency} && |ActiveWithLevel(st, l)| > 0 :: |ActiveWithLevel(st, l)|,
      map c | c in {System, Performance, Security, Service, Network, Storage} && |ActiveWithCategory(st, c)| > 0
        :: |ActiveWithCategory(st, c)|)
  }

  /** Enabled rules never outnumber rules, today's incidents never outnumber
      the week's (midnight is after a week ago), active incidents are among
      all incidents, and a level or category appears in the statistics
      exactly when an active incident has it, with that many incidents. */
  lemma AlertMetricsFacts(st: Store, now: int)
    requires StoreValid(st)
    ensures var m := GetAlertMetrics(st, now);
      m.enabledRules <= m.totalRules &&
      m.todayIncidents <= m.weekIncidents &&
      m.activeIncidents <= |st.incidents| &&
      (forall l :: l in m.levelStatistics <==> exists i :: i in st.active && st.incidents[i].level == l) &&
      (forall l :: l in m.levelStatistics ==> m.levelStatistics[l] == |ActiveWithLevel(st, l)|) &&
      (forall c :: c in m.categoryStatistics <==> exists i :: i in st.active && st.incidents[i].category == c) &&
      (forall c :: c in m.categoryStatistics ==> m.categoryStatistics[c] == |ActiveWithCategory(st, c)|)
  {
    SubsetSize(EnabledRules(st), st.rules.Keys);
    assert DayStart(now) >= now - 7 * 86400;
    SubsetSize(StartedSince(st, DayStart(now)), StartedSince(st, now - 7 * 86400));
    SubsetSize(st.active, st.incidents.Keys);
    var m := GetAlertMetrics(st, now);
    forall l ensures l in m.levelStatistics <==> exists i :: i in st.active && st.incidents[i].level == l {
      if exists i :: i in st.active && st.incidents[i].level == l {
        var i :| i in st.active && st.incidents[i].level == l;
        assert i in ActiveWithLevel(st, l);
      }
    }
    forall c ensures c in m.categoryStatistics <==> exists i :: i in st.active && st.incidents[i].category == c {
      if exists i :: i in st.active && st.incidents[i].category == c {
        var i :| i in st.active && st.incidents[i].category == c;
        assert i in ActiveWithCategory(st, c);
      }
    }
  }

  // ---------------------------------------------------------------------
  // The routes that change the engine
  // ---------------------------------------------------------------------

  method IncidentActionRoute(e: Engine, id: Id, action: string, comment: Option<string>, duration: Option<int>,
                             now: int) returns (r: Result<ActionTaken>)
    requires e.Valid()
    modifies e
    ensures e.Valid()
    ensures (r, e.State()) == IncidentAction(old(e.State()), id, action, comment, duration, now)
  {
    if id !in e.incidents {
      return Err(404, "incident not found");
    }
    if action == "acknowledge" {
      e.AcknowledgeIncident(id, "web_user", comment, now);
      r := Ok(DidAcknowledge);
    } else if action == "resolve" {
      e.ResolveIncident(id, comment, now);
      r := Ok(DidResolve);
    } else if action == "suppress" {
      var minutes := SuppressMinutes(duration);
      e.SuppressIncident(id, minutes, now);
      r := Ok(DidSuppress(minutes));
    } else {
      r := Err(400, "invalid action");
    }
  }

  method CreateAlertRuleRoute(e: Engine, req: RuleCreate, now: int) returns (r: Result<Id>)
    requires e.Valid()
    modifies e
    ensures e.Valid()
    ensures (r, e.State()) == CreateAlertRule(old(e.State()), req, now)
  {
    if !RuleCreateValid(req) {
      return Err(422, "rule out of range");
    }
    var id := e.nextId;
    e.rules := e.rules[id := RuleFromCreate(id, req, now)];
    e.nextId := e.nextId + 1;
    r := Ok(id);
  }

  method UpdateAlertRuleRoute(e: Engine, id: Id, u: RuleUpdate, now: int) returns (r: Result<Id>)
    requires e.Valid()
    modifies e
    ensures e.Valid()
    ensures (r, e.State()) == UpdateAlertRule(old(e.State()), id, u, now)
  {
    if !RuleUpdateValid(u) {
      return Err(422, "update out of range");
    }
    if id !in e.rules {
      return Err(404, "rule not found");
    }
    e.rules := e.rules[id := ApplyRuleUpdate(e.rules[id], u, now)];
    r := Ok(id);
  }

  method DeleteAlertRuleRoute(e: Engine, id: Id) returns (r: Result<string>)
    requires e.Valid()
    modifies e
    ensures e.Valid()
    ensures (r, e.State()) == DeleteAlertRule(old(e.State()), id)
  {
    if id !in e.rules {
      return Err(404, "rule not found");
    }
    r := Ok(e.rules[id].name);
    e.rules := e.rules - {id};
  }

  method ToggleAlertRuleRoute(e: Engine, id: Id, now: int) returns (r: Result<bool>)
    requires e.Valid()
    modifies e
    ensures e.Valid()
    ensures (r, e.State()) == ToggleAlertRule(old(e.State()), id, now)
  {
    if id !in e.rules {
      return Err(404, "rule not found");
    }
    var rule := e.rules[id];
    e.rules := e.rules[id := rule.(enabled := !rule.enabled, updatedAt := now)];
    r := Ok(!rule.enabled);
  }
}
