/**
 * The alert engine: per-rule breach tracking, incident creation with a
 * minimum duration and a cool-down, automatic resolution when a breach
 * clears, and the incident lifecycle (acknowledge, resolve, suppress).
 *
 * The source keeps two dictionaries, `incidents` and `active_incidents`,
 * whose values are the same incident objects. Here the incidents live in one
 * map and the active table is the set of their ids, so an update made through
 * either table is seen through both, as in the source.
 */
module AlertEngine {
  import opened Common
  import opened AlertModels
  import Sorting

  // ---------------------------------------------------------------------
  // Conditions
  // ---------------------------------------------------------------------

  /** Whether `value` breaches `threshold` under the rule's comparator. */
  function CheckCondition(value: real, condition: string, threshold: real): bool
  {
    if condition == ">" then value > threshold
    else if condition == ">=" then value >= threshold
    else if condition == "<" then value < threshold
    else if condition == "<=" then value <= threshold
    else if condition == "==" then AbsR(value - threshold) < 0.01
    else if condition == "!=" then AbsR(value - threshold) >= 0.01
    else false
  }

  /** The strict and non-strict comparators are exact and complementary;
      equality holds within 0.01 and inequality is exactly its negation. */
  lemma ConditionSemantics(v: real, t: real)
    ensures CheckCondition(v, ">", t) <==> !CheckCondition(v, "<=", t)
    ensures CheckCondition(v, "<", t) <==> !CheckCondition(v, ">=", t)
    ensures CheckCondition(v, "==", t) <==> -0.01 < v - t < 0.01
    ensures CheckCondition(v, "!=", t) <==> !CheckCondition(v, "==", t)
    ensures CheckCondition(v, "==", v) && !CheckCondition(v, "!=", v)
  {
  }

  /** An operator outside the six known ones never fires. */
  lemma UnknownConditionNeverFires(v: real, c: string, t: real)
    requires c != ">" && c != ">=" && c != "<" && c != "<=" && c != "==" && c != "!="
    ensures !CheckCondition(v, c, t)
  {
  }

  // ---------------------------------------------------------------------
  // Per-rule state machine
  // ---------------------------------------------------------------------

  datatype RuleState = RuleState(
    triggeredAt: Option<int>,
    lastCheck: int,
    consecutive: nat,
    lastNotification: Option<int>)

  /** The outcome of one observation: the new state, whether an incident is
      created, and whether the rule's active incidents are auto-resolved. */
  datatype Step = Step(state: RuleState, fire: bool, resolve: bool)

  function InitialState(now: int): RuleState
  {
    RuleState(None, now, 0, None)
  }

  /** Duration reached and cool-down elapsed (or nothing notified yet). */
  predicate Due(rule: Rule, st: RuleState, now: int)
    requires st.triggeredAt.Some?
  {
    now - st.triggeredAt.value >= rule.duration &&
    (st.lastNotification.None? || now - st.lastNotification.value >= rule.coolDown)
  }

  /** One observation `value` of the rule's metric at time `now`. */
  function Observe(rule: Rule, prior: Option<RuleState>, value: real, now: int): Step
  {
    var st := if prior.Some? then prior.value else InitialState(now);
    if CheckCondition(value, rule.condition, rule.threshold) then
      if st.triggeredAt.None? then
        Step(st.(triggeredAt := Some(now), consecutive := 1, lastCheck := now), false, false)
      else if Due(rule, st, now) then
        Step(st.(consecutive := st.consecutive + 1, lastNotification := Some(now), lastCheck := now), true, false)
      else
        Step(st.(consecutive := st.consecutive + 1, lastCheck := now), false, false)
    else if st.triggeredAt.Some? then
      Step(st.(triggeredAt := None, consecutive := 0, lastCheck := now), false, rule.autoResolve)
    else
      Step(st.(lastCheck := now), false, false)
  }

  /** The first breaching observation only starts the breach clock; it never
      creates an incident, whatever the rule's duration. */
  lemma FirstBreachNeverFires(rule: Rule, prior: Option<RuleState>, value: real, now: int)
    requires prior.None? || prior.value.triggeredAt.None?
    requires CheckCondition(value, rule.condition, rule.threshold)
    ensures var s := Observe(rule, prior, value, now);
      !s.fire && !s.resolve && s.state.triggeredAt == Some(now) && s.state.consecutive == 1
  {
  }

  /** An incident is created exactly when the breach continues, has lasted at
      least `duration`, and the cool-down since the last notification has
      passed; creating one records `now` as the last notification. */
  lemma FireExactlyWhenDue(rule: Rule, prior: Option<RuleState>, value: real, now: int)
    ensures var s := Observe(rule, prior, value, now);
      s.fire <==> (prior.Some? && prior.value.triggeredAt.Some? &&
                   CheckCondition(value, rule.condition, rule.threshold) && Due(rule, prior.value, now))
    ensures var s := Observe(rule, prior, value, now);
      s.fire ==> s.state.lastNotification == Some(now)
    ensures var s := Observe(rule, prior, value, now);
      !s.fire ==> s.state.lastNotification == (if prior.Some? then prior.value.lastNotification else None)
  {
  }

  /** A clearing observation resets the breach clock but keeps the last
      notification time; it asks for auto-resolution only after a breach. */
  lemma ClearResetsButKeepsNotification(rule: Rule, prior: Option<RuleState>, value: real, now: int)
    requires !CheckCondition(value, rule.condition, rule.threshold)
    ensures var s := Observe(rule, prior, value, now);
      s.state.triggeredAt.None? && !s.fire &&
      s.state.lastNotification == (if prior.Some? then prior.value.lastNotification else None) &&
      (s.resolve <==> rule.autoResolve && prior.Some? && prior.value.triggeredAt.Some?)
    ensures var s := Observe(rule, prior, value, now);
      prior.Some? && prior.value.triggeredAt.Some? ==> s.state.consecutive == 0
  {
  }

  /** A rule state counts breaches exactly while a breach is running. */
  predicate Consistent(st: RuleState)
  {
    st.triggeredAt.None? <==> st.consecutive == 0
  }

  lemma ObservePreservesConsistency(rule: Rule, prior: Option<RuleState>, value: real, now: int)
    requires prior.Some? ==> Consistent(prior.value)
    ensures Consistent(Observe(rule, prior, value, now).state)
  {
  }

  datatype Sample = Sample(value: real, time: int)

  /** Replay a series of observations of one rule; returns the times at which
      incidents were created and the final state. */
  function Replay(rule: Rule, prior: Option<RuleState>, samples: seq<Sample>): (seq<int>, Option<RuleState>)
    decreases |samples|
  {
    if samples == [] then ([], prior)
    else
      var s := Observe(rule, prior, samples[0].value, samples[0].time);
      var (rest, last) := Replay(rule, Some(s.state), samples[1..]);
      ((if s.fire then [samples[0].time] else []) + rest, last)
  }

  /** Two consecutive incidents of a rule are at least `cool_down` apart,
      whether or not the breach cleared in between; the first is at least
      `cool_down` after any earlier notification. */
  lemma {:induction false} ReplaySpacing(rule: Rule, prior: Option<RuleState>, samples: seq<Sample>)
    ensures var fires := Replay(rule, prior, samples).0;
      (forall k :: 0 <= k < |fires| - 1 ==> fires[k + 1] - fires[k] >= rule.coolDown) &&
      (|fires| > 0 && prior.Some? && prior.value.lastNotification.Some? ==>
         fires[0] - prior.value.lastNotification.value >= rule.coolDown)
    ensures var (fires, last) := Replay(rule, prior, samples);
      |fires| > 0 ==> last.Some? && last.value.lastNotification == Some(fires[|fires| - 1])
    ensures var (fires, last) := Replay(rule, prior, samples);
      |fires| == 0 && prior.Some? ==> last.Some? && last.value.lastNotification == prior.value.lastNotification
    decreases |samples|
  {
    if samples != [] {
      var s := Observe(rule, prior, samples[0].value, samples[0].time);
      ReplaySpacing(rule, Some(s.state), samples[1..]);
      FireExactlyWhenDue(rule, prior, samples[0].value, samples[0].time);
    }
  }

  // ---------------------------------------------------------------------
  // Summary helpers over incident lists
  // ---------------------------------------------------------------------

  function MarkResolved(inc: Incident, now: int): Incident
  {
    inc.(status := Resolved, resolvedAt := Some(now))
  }

  /** Incident `i` is one that auto-resolution of rule `rid` closes. */
  predicate Resolvable(incs: map<Id, Incident>, active: set<Id>, rid: Id, i: Id)
  {
    i in active && i in incs && incs[i].ruleId == rid && incs[i].status == Active
  }

  function ResolvedIds(incs: map<Id, Incident>, active: set<Id>, rid: Id): set<Id>
  {
    set i | i in active && Resolvable(incs, active, rid, i)
  }

  datatype Summary = Summary(
    totalAlerts: nat,
    activeAlerts: nat,
    criticalAlerts: nat,
    warningAlerts: nat,
    acknowledgedAlerts: nat,
    resolvedToday: nat,
    avgResolutionMinutes: real,
    topCategories: seq<(Category, nat)>)

  function DayStart(t: int): int
  {
    t - t % 86400
  }

  /** Minutes from the start of an incident to its resolution, 0 while it
      is unresolved. */
  function ResolutionMinutes(i: Incident): real
  {
    if i.resolvedAt.Some? then (i.resolvedAt.value - i.startedAt) as real / 60.0 else 0.0
  }

  function SumResolutionMinutes(s: seq<Incident>): real
  {
    if s == [] then 0.0 else ResolutionMinutes(s[0]) + SumResolutionMinutes(s[1..])
  }

  /** The mean resolution time of the resolved incidents, 0 when there are
      none. */
  function AvgResolution(all: seq<Incident>): real
  {
    var resolved := Filter(all, (i: Incident) => i.resolvedAt.Some?);
    if resolved != [] then SumResolutionMinutes(resolved) / (|resolved| as real) else 0.0
  }

  /** Categories of `s` in order of first appearance. */
  function CategoriesOf(s: seq<Incident>): (r: seq<Category>)
    ensures forall c :: c in r <==> exists k :: 0 <= k < |s| && s[k].category == c
    ensures forall i, j :: 0 <= i < j < |r| ==> r[i] != r[j]
  {
    if s == [] then []
    else
      var rest := CategoriesOf(s[..|s| - 1]);
      var c := s[|s| - 1].category;
      if c in rest then rest else rest + [c]
  }

  function CategoryCount(s: seq<Incident>, c: Category): nat
  {
    Count(s, (x: Incident) => x.category == c)
  }

  function CountKey(p: (Category, nat)): Sorting.SortKey
  {
    Sorting.Num(p.1 as real)
  }

  /** The summary over all incidents and the active ones, both in order. */
  function SummaryOf(all: seq<Incident>, active: seq<Incident>, todayStart: int): Summary
  {
    Summary(
      |all|,
      |active|,
      Count(active, (i: Incident) => i.level == Critical),
      Count(active, (i: Incident) => i.level == Warning),
      Count(active, (i: Incident) => i.status == Acknowledged),
      Count(all, (i: Incident) => i.resolvedAt.Some? && i.resolvedAt.value >= todayStart),
      AvgResolution(all),
      TopCategories(active))
  }

  function CategoryCounts(active: seq<Incident>): seq<(Category, nat)>
  {
    var cats := CategoriesOf(active);
    seq(|cats|, k requires 0 <= k < |cats| => (cats[k], CategoryCount(active, cats[k])))
  }

  /** Category counts of the active incidents, largest first. */
  function TopCategories(active: seq<Incident>): seq<(Category, nat)>
  {
    Sorting.SortBy(CategoryCounts(active), CountKey, true)
  }

  lemma {:induction false} CountDisjoint(s: seq<Incident>, p: Incident -> bool, q: Incident -> bool)
    requires forall x :: !(p(x) && q(x))
    ensures Count(s, p) + Count(s, q) == Count(s, (x: Incident) => p(x) || q(x))
  {
    if s != [] { CountDisjoint(s[1..], p, q); }
  }

  lemma {:induction false} CountPositive<T>(s: seq<T>, p: T -> bool, k: int)
    requires 0 <= k < |s| && p(s[k])
    ensures Count(s, p) > 0
  {
    if k > 0 { CountPositive(s[1..], p, k - 1); }
  }

  /** Critical and warning counts together never exceed the active count;
      every listed category occurs among the active incidents with exactly
      its count, and the list is ordered by count, largest first. */
  lemma SummaryCounts(all: seq<Incident>, active: seq<Incident>, todayStart: int)
    ensures var s := SummaryOf(all, active, todayStart);
      s.criticalAlerts + s.warningAlerts <= s.activeAlerts &&
      s.acknowledgedAlerts <= s.activeAlerts &&
      s.resolvedToday <= s.totalAlerts
  {
    CountDisjoint(active, (i: Incident) => i.level == Critical, (i: Incident) => i.level == Warning);
  }

  lemma {:induction false} CountWeaker(s: seq<Incident>, p: Incident -> bool, q: Incident -> bool)
    requires forall x :: p(x) ==> q(x)
    ensures Count(s, p) <= Count(s, q)
  {
    if s != [] { CountWeaker(s[1..], p, q); }
  }

  /** Incidents resolved today are among the resolved ones, and there is at
      least one exactly when some incident was resolved at or after the
      start of the day. */
  lemma ResolvedTodayFacts(all: seq<Incident>, active: seq<Incident>, todayStart: int)
    ensures var s := SummaryOf(all, active, todayStart);
      s.resolvedToday <= Count(all, (i: Incident) => i.resolvedAt.Some?) &&
      (s.resolvedToday > 0 <==>
        exists k :: 0 <= k < |all| && all[k].resolvedAt.Some? && all[k].resolvedAt.value >= todayStart)
  {
    var p := (i: Incident) => i.resolvedAt.Some? && i.resolvedAt.value >= todayStart;
    CountWeaker(all, p, (i: Incident) => i.resolvedAt.Some?);
    if k :| 0 <= k < |all| && all[k].resolvedAt.Some? && all[k].resolvedAt.value >= todayStart {
      CountPositive(all, p, k);
    } else {
      FilterNone(all, p);
    }
  }

  lemma {:induction false} SumResolutionAtLeast(s: seq<Incident>, lo: real)
    requires forall k :: 0 <= k < |s| ==> lo <= ResolutionMinutes(s[k])
    ensures (|s| as real) * lo <= SumResolutionMinutes(s)
  {
    if s != [] {
      assert forall k :: 0 <= k < |s[1..]| ==> s[1..][k] == s[k + 1];
      SumResolutionAtLeast(s[1..], lo);
      assert (|s| as real) * lo == (|s[1..]| as real) * lo + lo;
    }
  }

  lemma {:induction false} SumResolutionAtMost(s: seq<Incident>, hi: real)
    requires forall k :: 0 <= k < |s| ==> ResolutionMinutes(s[k]) <= hi
    ensures SumResolutionMinutes(s) <= (|s| as real) * hi
  {
    if s != [] {
      assert forall k :: 0 <= k < |s[1..]| ==> s[1..][k] == s[k + 1];
      SumResolutionAtMost(s[1..], hi);
      assert (|s| as real) * hi == (|s[1..]| as real) * hi + hi;
    }
  }

  lemma DivideBetween(sum: real, n: real, lo: real, hi: real)
    requires n > 0.0 && n * lo <= sum <= n * hi
    ensures lo <= sum / n <= hi
  {
    assert sum / n * n == sum;
  }

  /** With no resolved incident the average resolution time is 0. */
  lemma AvgResolutionZero(all: seq<Incident>, active: seq<Incident>, todayStart: int)
    requires forall k :: 0 <= k < |all| ==> all[k].resolvedAt.None?
    ensures SummaryOf(all, active, todayStart).avgResolutionMinutes == 0.0
  {
    FilterNone(all, (i: Incident) => i.resolvedAt.Some?);
  }

  /** The average resolution time lies within any bounds on the resolution
      times of the resolved incidents, so between the shortest and the
      longest of them. */
  lemma AvgResolutionBetween(all: seq<Incident>, active: seq<Incident>, todayStart: int, lo: real, hi: real)
    requires forall i :: i in all && i.resolvedAt.Some? ==> lo <= ResolutionMinutes(i) <= hi
    requires exists k :: 0 <= k < |all| && all[k].resolvedAt.Some?
    ensures lo <= SummaryOf(all, active, todayStart).avgResolutionMinutes <= hi
  {
    AvgResolutionWithin(all, lo, hi);
  }

  lemma AvgResolutionWithin(all: seq<Incident>, lo: real, hi: real)
    requires forall i :: i in all && i.resolvedAt.Some? ==> lo <= ResolutionMinutes(i) <= hi
    requires exists k :: 0 <= k < |all| && all[k].resolvedAt.Some?
    ensures lo <= AvgResolution(all) <= hi
  {
    var p := (i: Incident) => i.resolvedAt.Some?;
    var resolved := Filter(all, p);
    FilterMembers(all, p);
    var k :| 0 <= k < |all| && all[k].resolvedAt.Some?;
    assert all[k] in resolved;
    forall j | 0 <= j < |resolved|
      ensures lo <= ResolutionMinutes(resolved[j]) <= hi
    {
      assert resolved[j] in resolved;
    }
    MeanResolutionWithin(resolved, lo, hi);
  }

  /** The mean resolution time of some incidents lies within any bounds on
      each of theirs. */
  lemma MeanResolutionWithin(rs: seq<Incident>, lo: real, hi: real)
    requires rs != []
    requires forall j :: 0 <= j < |rs| ==> lo <= ResolutionMinutes(rs[j]) <= hi
    ensures lo <= SumResolutionMinutes(rs) / (|rs| as real) <= hi
  {
    SumResolutionAtLeast(rs, lo);
    SumResolutionAtMost(rs, hi);
    DivideBetween(SumResolutionMinutes(rs), |rs| as real, lo, hi);
  }

  /** When no incident is resolved before it started, the average
      resolution time is not negative. */
  lemma AvgResolutionNonNegative(all: seq<Incident>, active: seq<Incident>, todayStart: int)
    requires forall i :: i in all && i.resolvedAt.Some? ==> i.resolvedAt.value >= i.startedAt
    ensures SummaryOf(all, active, todayStart).avgResolutionMinutes >= 0.0
  {
    var p := (i: Incident) => i.resolvedAt.Some?;
    var resolved := Filter(all, p);
    if resolved != [] {
      FilterMembers(all, p);
      forall j | 0 <= j < |resolved|
        ensures 0.0 <= ResolutionMinutes(resolved[j])
      {
        assert resolved[j] in resolved;
      }
      SumResolutionAtLeast(resolved, 0.0);
      var sum, n := SumResolutionMinutes(resolved), |resolved| as real;
      assert sum <= n * sum by {
        assert n * sum == sum + (n - 1.0) * sum;
      }
      DivideBetween(sum, n, 0.0, sum);
    }
  }

  /** Every listed category occurs among the active incidents with exactly
      its count, and the list is ordered by count, largest first. */
  lemma TopCategoriesFacts(active: seq<Incident>)
    ensures var t := TopCategories(active);
      (forall k :: 0 <= k < |t| ==> t[k].1 == CategoryCount(active, t[k].0) && t[k].1 > 0) &&
      (forall j, k :: 0 <= j < k < |t| ==> t[j].1 >= t[k].1)
  {
    var counts := CategoryCounts(active);
    var t := TopCategories(active);
    forall k | 0 <= k < |t| ensures t[k].1 == CategoryCount(active, t[k].0) && t[k].1 > 0 {
      assert t[k] in multiset(counts);
      CategoryCountsPositive(active, t[k]);
    }
    forall j, k | 0 <= j < k < |t| ensures t[j].1 >= t[k].1 {
      assert !Sorting.Before(CountKey, true, t[k], t[j]);
    }
  }

  lemma CategoryCountsPositive(active: seq<Incident>, p: (Category, nat))
    requires p in CategoryCounts(active)
    ensures p.1 == CategoryCount(active, p.0) && p.1 > 0
  {
    var cats := CategoriesOf(active);
    var k :| 0 <= k < |cats| && CategoryCounts(active)[k] == p;
    assert cats[k] in cats;
    var m :| 0 <= m < |active| && active[m].category == cats[k];
    CountPositive(active, (x: Incident) => x.category == cats[k], m);
  }

  // ---------------------------------------------------------------------
  // Default rules
  // ---------------------------------------------------------------------

  function DefaultRule(k: nat, id: Id, now: int): Rule
    requires k < 4
  {
    if k == 0 then
      RuleWithDefaults(id, "CPU 使用率過高", Performance, "cpu_percent", ">", 80.0, Warning, now)
        .(description := Some("CPU 使用率超過 80% 持續 2 分鐘"), duration := 120, coolDown := 300,
          channels := ["discord"])
    else if k == 1 then
      RuleWithDefaults(id, "記憶體使用率危險", Performance, "memory_percent", ">", 90.0, Critical, now)
        .(description := Some("記憶體使用率超過 90%"), duration := 60, coolDown := 600,
          channels := ["discord"])
    else if k == 2 then
      RuleWithDefaults(id, "磁碟空間不足", Storage, "disk_percent", ">", 85.0, Warning, now)
        .(description := Some("磁碟使用率超過 85%"), duration := 300, coolDown := 1800,
          channels := ["discord"])
    else
      RuleWithDefaults(id, "系統負載過高", Performance, "load_avg_1min", ">", 4.0, Warning, now)
        .(description := Some("1分鐘平均負載超過 CPU 核心數"), duration := 180,
          coolDown := 300, channels := ["discord"])
  }

  /** The four default rules watch four different metrics with `>`, are
      enabled with auto-resolution, and respect the create-request bounds. */
  lemma DefaultRulesWellFormed(k: nat, id: Id, now: int)
    requires k < 4
    ensures var r := DefaultRule(k, id, now);
      r.id == id && r.enabled && r.autoResolve && r.condition == ">" &&
      DurationInBounds(r.duration) && CoolDownInBounds(r.coolDown)
    ensures forall j :: 0 <= j < 4 && j != k ==> DefaultRule(j, id, now).metric != DefaultRule(k, id, now).metric
  {
    var names := ["cpu_percent", "memory_percent", "disk_percent", "load_avg_1min"];
    forall j | 0 <= j < 4 ensures DefaultRule(j, id, now).metric == names[j] {
      if j == 0 {} else if j == 1 {} else if j == 2 {} else {}
    }
    assert |names[0]| == 11 && |names[1]| == 14 && |names[2]| == 12 && |names[3]| == 13;
  }

  /** Installing a default rule under the next fresh id keeps the store valid. */
  lemma InstallKeepsValid(st: Store, k: nat, now: int)
    requires k < 4 && StoreValid(st)
    ensures StoreValid(st.(rules := st.rules[st.nextId := DefaultRule(k, st.nextId, now)], nextId := st.nextId + 1))
  {
    DefaultRulesWellFormed(k, st.nextId, now);
  }

  function StartedFrom(cutoff: int): Incident -> bool
  {
    (i: Incident) => i.startedAt >= cutoff
  }

  function Get(states: map<Id, RuleState>, id: Id): Option<RuleState>
  {
    if id in states then Some(states[id]) else None
  }

  /** What evaluating `rule` against `metrics` does: nothing when its metric
      is absent, otherwise one observation. */
  function Outcome(rule: Rule, states: map<Id, RuleState>, metrics: map<string, real>, now: int): Option<Step>
  {
    if rule.metric in metrics then Some(Observe(rule, Get(states, rule.id), metrics[rule.metric], now))
    else None
  }

  // ---------------------------------------------------------------------
  // The engine's tables as one value, and what each operation does to them
  // ---------------------------------------------------------------------

  datatype Store = Store(
    rules: map<Id, Rule>,
    incidents: map<Id, Incident>,
    active: set<Id>,
    ruleStates: map<Id, RuleState>,
    nextId: nat)

  /** Active ids are incidents, no active incident is RESOLVED, and every id
      in use is below the next fresh one. */
  predicate StoreValid(st: Store)
  {
    st.active <= st.incidents.Keys &&
    (forall i :: i in st.incidents ==> st.incidents[i].id == i && i < st.nextId) &&
    (forall i :: i in st.active ==> st.incidents[i].status != Resolved) &&
    (forall r :: r in st.rules ==> st.rules[r].id == r && r < st.nextId)
  }

  /** `_create_incident`: a new ACTIVE incident in both tables. */
  function WithIncident(st: Store, rule: Rule, value: real, now: int): Store
  {
    st.(incidents := st.incidents[st.nextId := NewIncident(st.nextId, rule, value, now)],
        active := st.active + {st.nextId},
        nextId := st.nextId + 1)
  }

  /** `m` with the incidents whose ids are in `done` marked resolved. */
  function ResolvedAmong(m: map<Id, Incident>, done: set<Id>, now: int): map<Id, Incident>
  {
    map i | i in m :: if i in done then MarkResolved(m[i], now) else m[i]
  }

  lemma ResolvedAmongStep(m: map<Id, Incident>, done: set<Id>, i: Id, now: int)
    requires i in m && i !in done
    ensures ResolvedAmong(m, done, now)[i := MarkResolved(m[i], now)] == ResolvedAmong(m, done + {i}, now)
  {
  }

  /** `_auto_resolve_incidents` */
  /** One incident of the auto-resolution loop: whether it is closed, and
      the tables once it has been looked at. */
  lemma AutoResolveStep(i0: map<Id, Incident>, a0: set<Id>, rid: Id, todo: set<Id>, i: Id, now: int)
    requires a0 <= i0.Keys && todo <= a0 && i in todo
    ensures var gone := ResolvedIds(i0, a0, rid);
      var m := ResolvedAmong(i0, gone - todo, now);
      i in m && m[i] == i0[i] &&
      ((m[i].ruleId == rid && m[i].status == Active) <==> i in gone) &&
      (i in gone ==> m[i := MarkResolved(m[i], now)] == ResolvedAmong(i0, gone - (todo - {i}), now) &&
                     (a0 - (gone - todo)) - {i} == a0 - (gone - (todo - {i}))) &&
      (i !in gone ==> gone - todo == gone - (todo - {i}))
  {
    var gone := ResolvedIds(i0, a0, rid);
    if i in gone {
      ResolvedAmongStep(i0, gone - todo, i, now);
      assert (gone - todo) + {i} == gone - (todo - {i});
    }
  }

  function AutoResolved(st: Store, rid: Id, now: int): Store
  {
    var gone := ResolvedIds(st.incidents, st.active, rid);
    st.(incidents := ResolvedAmong(st.incidents, gone, now), active := st.active - gone)
  }

  /** `_evaluate_rule` */
  function EvaluatedRule(st: Store, id: Id, metrics: map<string, real>, now: int): Store
    requires id in st.rules
  {
    var rule := st.rules[id];
    var o := Outcome(rule, st.ruleStates, metrics, now);
    if o.None? then st
    else
      var st1 := if o.value.fire then WithIncident(st, rule, metrics[rule.metric], now)
                 else if o.value.resolve then AutoResolved(st, id, now)
                 else st;
      st1.(ruleStates := st.ruleStates[id := o.value.state])
  }

  /** The enabled rules with ids below `k`, evaluated in ascending id order.
      Rule ids are handed out in increasing order, so this is the rule
      table's insertion order. */
  function PassUpTo(st: Store, metrics: map<string, real>, now: int, k: nat): (p: Store)
    ensures p.rules == st.rules
    ensures p.nextId >= st.nextId
  {
    if k == 0 then st
    else
      var p := PassUpTo(st, metrics, now, k - 1);
      if k - 1 in p.rules && p.rules[k - 1].enabled then EvaluatedRule(p, k - 1, metrics, now) else p
  }

  /** `evaluate_metrics`: one pass over every rule. */
  function Pass(st: Store, metrics: map<string, real>, now: int): Store
  {
    PassUpTo(st, metrics, now, st.nextId)
  }

  /** What one pass does to rule `rule`: disabled rules are skipped. */
  function PassOutcome(rule: Rule, states: map<Id, RuleState>, metrics: map<string, real>, now: int): Option<Step>
  {
    if rule.enabled then Outcome(rule, states, metrics, now) else None
  }

  /** The state of rule `r` after a pass: one observation when it was
      evaluated, its old state when it was skipped. */
  function StateAfterPass(st: Store, metrics: map<string, real>, now: int, r: Id): Option<RuleState>
  {
    if r in st.rules && PassOutcome(st.rules[r], st.ruleStates, metrics, now).Some? then
      Some(PassOutcome(st.rules[r], st.ruleStates, metrics, now).value.state)
    else Get(st.ruleStates, r)
  }

  predicate Fires(st: Store, metrics: map<string, real>, now: int, r: Id)
  {
    r in st.rules && var o := PassOutcome(st.rules[r], st.ruleStates, metrics, now); o.Some? && o.value.fire
  }

  predicate Clears(st: Store, metrics: map<string, real>, now: int, r: Id)
  {
    r in st.rules && var o := PassOutcome(st.rules[r], st.ruleStates, metrics, now); o.Some? && o.value.resolve
  }

  /** Incident `i`, present before the pass, was auto-resolved by a rule
      below `k`. */
  predicate ClosedBy(st: Store, metrics: map<string, real>, now: int, k: nat, i: Id)
    requires i in st.incidents
  {
    i in st.active && st.incidents[i].status == Active && st.incidents[i].ruleId < k &&
    Clears(st, metrics, now, st.incidents[i].ruleId)
  }


  // ---------------------------------------------------------------------
  // Lifecycle operations on the store
  // ---------------------------------------------------------------------

  /** Records a non-empty comment under `key`; an absent or empty comment
      leaves the context as it was. */
  function WithComment(ctx: map<string, string>, key: string, comment: Option<string>): map<string, string>
  {
    if comment.Some? && comment.value != "" then ctx[key := comment.value] else ctx
  }

  /** `acknowledge_incident` */
  function AfterAcknowledge(st: Store, id: Id, user: string, comment: Option<string>, now: int): Store
  {
    if id !in st.incidents then st
    else
      var inc := st.incidents[id];
      st.(incidents := st.incidents[id := inc.(status := Acknowledged, acknowledgedAt := Some(now),
                                               acknowledgedBy := Some(user),
                                               context := WithComment(inc.context, "acknowledgment_comment", comment))])
  }

  /** `resolve_incident` */
  function AfterResolve(st: Store, id: Id, comment: Option<string>, now: int): Store
  {
    if id !in st.incidents then st
    else
      var inc := st.incidents[id];
      st.(incidents := st.incidents[id := inc.(status := Resolved, resolvedAt := Some(now),
                                               context := WithComment(inc.context, "resolution_comment", comment))],
          active := st.active - {id})
  }

  /** `suppress_incident`; the duration is in minutes. */
  function AfterSuppress(st: Store, id: Id, minutes: int, now: int): Store
  {
    if id !in st.incidents then st
    else
      st.(incidents := st.incidents[id := st.incidents[id].(status := Suppressed,
                                                            suppressedUntil := Some(now + minutes * 60))])
  }

  /** Acknowledging marks the incident ACKNOWLEDGED with who and when, keeps
      it in the active table, changes no other incident, and does nothing for
      an unknown id. */
  lemma AcknowledgeFacts(st: Store, id: Id, user: string, comment: Option<string>, now: int)
    requires StoreValid(st)
    ensures var a := AfterAcknowledge(st, id, user, comment, now);
      StoreValid(a) && a.active == st.active && a.rules == st.rules && a.ruleStates == st.ruleStates &&
      a.incidents.Keys == st.incidents.Keys &&
      (forall j :: j in st.incidents && j != id ==> a.incidents[j] == st.incidents[j]) &&
      (id in st.incidents ==> a.incidents[id].status == Acknowledged &&
                              a.incidents[id].acknowledgedAt == Some(now) &&
                              a.incidents[id].acknowledgedBy == Some(user)) &&
      (id !in st.incidents ==> a == st)
  {
    var a := AfterAcknowledge(st, id, user, comment, now);
    if id in st.incidents {
      forall i | i in a.active ensures a.incidents[i].status != Resolved {
        if i != id { assert a.incidents[i] == st.incidents[i]; }
      }
    }
  }

  /** Resolving marks the incident RESOLVED at `now` and removes it from the
      active table, changes no other incident, and does nothing for an
      unknown id. */
  lemma ResolveFacts(st: Store, id: Id, comment: Option<string>, now: int)
    requires StoreValid(st)
    ensures var r := AfterResolve(st, id, comment, now);
      StoreValid(r) && r.active == st.active - {id} && r.rules == st.rules && r.ruleStates == st.ruleStates &&
      r.incidents.Keys == st.incidents.Keys &&
      (forall j :: j in st.incidents && j != id ==> r.incidents[j] == st.incidents[j]) &&
      (id in st.incidents ==> r.incidents[id].status == Resolved && r.incidents[id].resolvedAt == Some(now)) &&
      (id !in st.incidents ==> r == st)
  {
    var r := AfterResolve(st, id, comment, now);
    if id in st.incidents {
      forall i | i in r.active ensures r.incidents[i].status != Resolved {
        assert r.incidents[i] == st.incidents[i];
      }
    }
  }

  /** Suppressing marks the incident SUPPRESSED until `now + minutes`, keeps
      it in the active table, changes no other incident, and does nothing for
      an unknown id. */
  lemma SuppressFacts(st: Store, id: Id, minutes: int, now: int)
    requires StoreValid(st)
    ensures var s := AfterSuppress(st, id, minutes, now);
      StoreValid(s) && s.active == st.active && s.rules == st.rules && s.ruleStates == st.ruleStates &&
      s.incidents.Keys == st.incidents.Keys &&
      (forall j :: j in st.incidents && j != id ==> s.incidents[j] == st.incidents[j]) &&
      (id in st.incidents ==> s.incidents[id].status == Suppressed &&
                              s.incidents[id].suppressedUntil == Some(now + minutes * 60)) &&
      (id !in st.incidents ==> s == st)
  {
    var s := AfterSuppress(st, id, minutes, now);
    if id in st.incidents {
      forall i | i in s.active ensures s.incidents[i].status != Resolved {
        if i != id { assert s.incidents[i] == st.incidents[i]; }
      }
    }
  }

  // ---------------------------------------------------------------------
  // What one evaluation pass does
  // ---------------------------------------------------------------------

  /** Creating an incident takes the next fresh id and keeps the store well
      formed. */
  lemma WithIncidentFacts(st: Store, rule: Rule, value: real, now: int)
    requires StoreValid(st)
    ensures var s := WithIncident(st, rule, value, now);
      StoreValid(s) && st.nextId !in st.incidents &&
      s.incidents.Keys == st.incidents.Keys + {st.nextId} &&
      s.active == st.active + {st.nextId} &&
      s.incidents[st.nextId] == NewIncident(st.nextId, rule, value, now) &&
      (forall i :: i in st.incidents ==> s.incidents[i] == st.incidents[i])
  {
  }

  /** Auto-resolution of rule `rid` resolves exactly its ACTIVE incidents in
      the active table, removes them from it, and changes no other incident. */
  lemma AutoResolvedFacts(st: Store, rid: Id, now: int)
    requires StoreValid(st)
    ensures var s := AutoResolved(st, rid, now);
      StoreValid(s) && s.incidents.Keys == st.incidents.Keys &&
      (forall i :: i in st.incidents ==>
         s.incidents[i] == (if Resolvable(st.incidents, st.active, rid, i) then MarkResolved(st.incidents[i], now)
                            else st.incidents[i])) &&
      (forall i :: i in s.active <==> i in st.active && !Resolvable(st.incidents, st.active, rid, i))
  {
  }

  /** Whether one evaluation of a rule resolves incidents (it never both
      creates and resolves). */
  predicate Resolves(o: Option<Step>)
  {
    o.Some? && !o.value.fire && o.value.resolve
  }

  /** One evaluation of rule `r`: the tables it changes and the incident
      it may create. */
  lemma StepShape(p: Store, r: Id, metrics: map<string, real>, now: int)
    requires StoreValid(p) && r in p.rules
    ensures var q := EvaluatedRule(p, r, metrics, now);
      var o := Outcome(p.rules[r], p.ruleStates, metrics, now);
      var fire := o.Some? && o.value.fire;
      StoreValid(q) && q.rules == p.rules &&
      q.ruleStates == (if o.Some? then p.ruleStates[r := o.value.state] else p.ruleStates) &&
      q.nextId == (if fire then p.nextId + 1 else p.nextId) &&
      p.nextId !in p.incidents &&
      (forall i :: i in q.incidents <==> i in p.incidents || (fire && i == p.nextId)) &&
      (fire ==> p.nextId in q.active &&
                q.incidents[p.nextId] == NewIncident(p.nextId, p.rules[r], metrics[p.rules[r].metric], now))
  {
    var rule := p.rules[r];
    var o := Outcome(rule, p.ruleStates, metrics, now);
    if o.Some? {
      if o.value.fire { WithIncidentFacts(p, rule, metrics[rule.metric], now); }
      else if o.value.resolve { AutoResolvedFacts(p, r, now); }
    }
  }

  /** One evaluation of rule `r` and an incident that was already there:
      it is resolved, and leaves the active table, exactly when the
      evaluation resolves and the incident is one of the rule's ACTIVE ones. */
  lemma StepOld(p: Store, r: Id, metrics: map<string, real>, now: int, i: Id)
    requires StoreValid(p) && r in p.rules && i in p.incidents
    ensures var q := EvaluatedRule(p, r, metrics, now);
      var o := Outcome(p.rules[r], p.ruleStates, metrics, now);
      i in q.incidents &&
      q.incidents[i] == (if Resolves(o) && Resolvable(p.incidents, p.active, r, i)
                         then MarkResolved(p.incidents[i], now) else p.incidents[i]) &&
      (i in q.active <==> i in p.active && !(Resolves(o) && Resolvable(p.incidents, p.active, r, i)))
  {
    var rule := p.rules[r];
    var o := Outcome(rule, p.ruleStates, metrics, now);
    if o.Some? {
      if o.value.fire { WithIncidentFacts(p, rule, metrics[rule.metric], now); }
      else if o.value.resolve { AutoResolvedFacts(p, r, now); }
    }
  }

  /** The step from `k - 1` to `k` of a pass. */
  lemma PassStep(st: Store, metrics: map<string, real>, now: int, k: nat)
    requires k > 0
    requires StoreValid(PassUpTo(st, metrics, now, k - 1))
    requires Get(PassUpTo(st, metrics, now, k - 1).ruleStates, k - 1) == Get(st.ruleStates, k - 1)
    ensures var p := PassUpTo(st, metrics, now, k - 1);
      var q := PassUpTo(st, metrics, now, k);
      var o := if k - 1 in st.rules then PassOutcome(st.rules[k - 1], st.ruleStates, metrics, now) else None;
      var fire := o.Some? && o.value.fire;
      StoreValid(q) && q.rules == st.rules &&
      q.ruleStates == (if o.Some? then p.ruleStates[k - 1 := o.value.state] else p.ruleStates) &&
      q.nextId == (if fire then p.nextId + 1 else p.nextId) &&
      p.nextId !in p.incidents &&
      (forall i :: i in q.incidents <==> i in p.incidents || (fire && i == p.nextId)) &&
      (fire ==> p.nextId in q.active && q.incidents[p.nextId].ruleId == k - 1 &&
                q.incidents[p.nextId] == NewIncident(p.nextId, st.rules[k - 1], metrics[st.rules[k - 1].metric], now))
  {
    var p := PassUpTo(st, metrics, now, k - 1);
    if k - 1 in p.rules && p.rules[k - 1].enabled {
      StepShape(p, k - 1, metrics, now);
    }
  }

  /** What one step of the pass does to the rule ids of the incidents. */
  lemma PassStepRuleIds(st: Store, metrics: map<string, real>, now: int, k: nat)
    requires StoreValid(st) && k > 0
    ensures var p := PassUpTo(st, metrics, now, k - 1);
      var q := PassUpTo(st, metrics, now, k);
      q.nextId >= p.nextId &&
      (Fires(st, metrics, now, k - 1) ==> p.nextId < q.nextId && p.nextId in q.incidents && q.incidents[p.nextId].ruleId == k - 1) &&
      (forall i :: i in p.incidents ==> i in q.incidents && q.incidents[i].ruleId == p.incidents[i].ruleId)
  {
    PassReady(st, metrics, now, k);
    PassStep(st, metrics, now, k);
    var p := PassUpTo(st, metrics, now, k - 1);
    var q := PassUpTo(st, metrics, now, k);
    forall i | i in p.incidents
      ensures i in q.incidents && q.incidents[i].ruleId == p.incidents[i].ruleId
    {
      PassStepIncident(st, metrics, now, k, i);
    }
  }

  lemma {:induction false} PassValid(st: Store, metrics: map<string, real>, now: int, k: nat)
    requires StoreValid(st)
    ensures StoreValid(PassUpTo(st, metrics, now, k))
  {
    if k > 0 {
      PassValid(st, metrics, now, k - 1);
      var p := PassUpTo(st, metrics, now, k - 1);
      if k - 1 in p.rules && p.rules[k - 1].enabled { StepShape(p, k - 1, metrics, now); }
    }
  }

  /** After rules below `k` were evaluated, each of them holds the state one
      observation of the pass gives it (or its old state when it was disabled
      or its metric was absent), and every other rule state is untouched. */
  lemma {:induction false} PassRuleStates(st: Store, metrics: map<string, real>, now: int, k: nat)
    requires StoreValid(st)
    ensures var p := PassUpTo(st, metrics, now, k);
      forall r: Id :: Get(p.ruleStates, r) == (if r < k then StateAfterPass(st, metrics, now, r) else Get(st.ruleStates, r))
  {
    if k > 0 {
      PassRuleStates(st, metrics, now, k - 1);
    }
  }

  /** The pass up to `k` and the facts the next step needs about it. */
  lemma PassReady(st: Store, metrics: map<string, real>, now: int, k: nat)
    requires StoreValid(st) && k > 0
    ensures StoreValid(PassUpTo(st, metrics, now, k - 1))
    ensures Get(PassUpTo(st, metrics, now, k - 1).ruleStates, k - 1) == Get(st.ruleStates, k - 1)
  {
    PassValid(st, metrics, now, k - 1);
    PassRuleStates(st, metrics, now, k - 1);
  }

  /** The incidents created by the pass over rules below `k`: they take the
      ids from the old `nextId` on, one per rule that fired, in rule order;
      each is an ACTIVE incident built from its rule and the observed value,
      and sits in the active table. */
  lemma {:induction false} PassNewIncidents(st: Store, metrics: map<string, real>, now: int, k: nat)
    requires StoreValid(st)
    ensures var p := PassUpTo(st, metrics, now, k);
      (forall i :: i in p.incidents <==> i in st.incidents || st.nextId <= i < p.nextId) &&
      (forall i :: st.nextId <= i < p.nextId ==>
         i in p.active && p.incidents[i].ruleId < k && Fires(st, metrics, now, p.incidents[i].ruleId) &&
         p.incidents[i] == NewIncident(i, st.rules[p.incidents[i].ruleId],
                                       metrics[st.rules[p.incidents[i].ruleId].metric], now)) &&
      (forall i, j :: st.nextId <= i < j < p.nextId ==> p.incidents[i].ruleId < p.incidents[j].ruleId)
  {
    if k > 0 {
      PassNewIncidents(st, metrics, now, k - 1);
      PassReady(st, metrics, now, k);
      PassStep(st, metrics, now, k);
      var p := PassUpTo(st, metrics, now, k - 1);
      var q := PassUpTo(st, metrics, now, k);
      forall i | st.nextId <= i < p.nextId
        ensures q.incidents[i] == p.incidents[i] && i in q.active
      {
        assert i in p.incidents && i !in st.incidents;
        PassStepIncident(st, metrics, now, k, i);
      }
    }
  }

  /** Every rule below `k` that fired has its incident among the new ones. */
  lemma {:induction false} PassFiringRulesRecorded(st: Store, metrics: map<string, real>, now: int, k: nat)
    requires StoreValid(st)
    ensures var p := PassUpTo(st, metrics, now, k);
      forall r: Id :: r < k && Fires(st, metrics, now, r) ==>
        exists i :: st.nextId <= i < p.nextId && i in p.incidents && p.incidents[i].ruleId == r
  {
    if k > 0 {
      PassFiringRulesRecorded(st, metrics, now, k - 1);
      PassStepRuleIds(st, metrics, now, k);
      var p := PassUpTo(st, metrics, now, k - 1);
      var q := PassUpTo(st, metrics, now, k);
      forall r: Id | r < k && Fires(st, metrics, now, r)
        ensures exists i :: st.nextId <= i < q.nextId && i in q.incidents && q.incidents[i].ruleId == r
      {
        if r == k - 1 {
          assert q.incidents[p.nextId].ruleId == r;
        } else {
          var i :| st.nextId <= i < p.nextId && i in p.incidents && p.incidents[i].ruleId == r;
          assert q.incidents[i].ruleId == r;
        }
      }
    }
  }

  /** The incidents already present before the pass: each is resolved by the
      pass exactly when its rule (below `k`) cleared while the incident was
      ACTIVE and in the active table, and only then leaves that table. */
  lemma {:induction false} PassOldIncidents(st: Store, metrics: map<string, real>, now: int, k: nat)
    requires StoreValid(st)
    ensures var p := PassUpTo(st, metrics, now, k);
      forall i :: i in st.incidents ==> OldIncidentAfter(st, p, metrics, now, k, i)
  {
    if k > 0 {
      PassOldIncidents(st, metrics, now, k - 1);
      forall i | i in st.incidents
        ensures OldIncidentAfter(st, PassUpTo(st, metrics, now, k), metrics, now, k, i)
      {
        OldIncidentStep(st, metrics, now, k, i);
      }
    }
  }

  /** Incident `i`, present before the pass, is in `p` resolved exactly when
      a rule below `k` closed it, and active exactly when it was and was not
      closed. */
  predicate OldIncidentAfter(st: Store, p: Store, metrics: map<string, real>, now: int, k: nat, i: Id)
    requires i in st.incidents
  {
    i in p.incidents &&
    p.incidents[i] == (if ClosedBy(st, metrics, now, k, i) then MarkResolved(st.incidents[i], now)
                       else st.incidents[i]) &&
    (i in p.active <==> i in st.active && !ClosedBy(st, metrics, now, k, i))
  }

  lemma OldIncidentStep(st: Store, metrics: map<string, real>, now: int, k: nat, i: Id)
    requires StoreValid(st) && k > 0 && i in st.incidents
    requires OldIncidentAfter(st, PassUpTo(st, metrics, now, k - 1), metrics, now, k - 1, i)
    ensures OldIncidentAfter(st, PassUpTo(st, metrics, now, k), metrics, now, k, i)
  {
    PassReady(st, metrics, now, k);
    PassStepIncident(st, metrics, now, k, i);
    if st.incidents[i].ruleId == k - 1 {
      OldIncidentOwnRule(st, metrics, now, k, i);
    } else {
      OldIncidentOtherRule(st, metrics, now, k, i);
    }
  }

  /** The step that evaluates the incident's own rule. */
  lemma OldIncidentOwnRule(st: Store, metrics: map<string, real>, now: int, k: nat, i: Id)
    requires StoreValid(st) && k > 0 && i in st.incidents && st.incidents[i].ruleId == k - 1
    requires OldIncidentAfter(st, PassUpTo(st, metrics, now, k - 1), metrics, now, k - 1, i)
    ensures var p := PassUpTo(st, metrics, now, k - 1);
      var o := if k - 1 in st.rules then PassOutcome(st.rules[k - 1], st.ruleStates, metrics, now) else None;
      (Resolves(o) && Resolvable(p.incidents, p.active, k - 1, i)) <==> ClosedBy(st, metrics, now, k, i)
    ensures ClosedBy(st, metrics, now, k, i) ==> !ClosedBy(st, metrics, now, k - 1, i)
  {
    var p := PassUpTo(st, metrics, now, k - 1);
    var o := if k - 1 in st.rules then PassOutcome(st.rules[k - 1], st.ruleStates, metrics, now) else None;
    assert !ClosedBy(st, metrics, now, k - 1, i);
    assert Resolvable(p.incidents, p.active, k - 1, i) <==> i in st.active && st.incidents[i].status == Active;
    assert Resolves(o) <==> Clears(st, metrics, now, k - 1);
  }

  /** A step that evaluates another rule. */
  lemma OldIncidentOtherRule(st: Store, metrics: map<string, real>, now: int, k: nat, i: Id)
    requires StoreValid(st) && k > 0 && i in st.incidents && st.incidents[i].ruleId != k - 1
    requires OldIncidentAfter(st, PassUpTo(st, metrics, now, k - 1), metrics, now, k - 1, i)
    ensures var p := PassUpTo(st, metrics, now, k - 1);
      !Resolvable(p.incidents, p.active, k - 1, i) &&
      ClosedBy(st, metrics, now, k, i) == ClosedBy(st, metrics, now, k - 1, i)
  {
  }

  /** The step from `k - 1` to `k` of a pass, seen from one incident already
      present. */
  lemma PassStepIncident(st: Store, metrics: map<string, real>, now: int, k: nat, i: Id)
    requires k > 0
    requires StoreValid(PassUpTo(st, metrics, now, k - 1))
    requires Get(PassUpTo(st, metrics, now, k - 1).ruleStates, k - 1) == Get(st.ruleStates, k - 1)
    requires i in PassUpTo(st, metrics, now, k - 1).incidents
    ensures var p := PassUpTo(st, metrics, now, k - 1);
      var q := PassUpTo(st, metrics, now, k);
      var o := if k - 1 in st.rules then PassOutcome(st.rules[k - 1], st.ruleStates, metrics, now) else None;
      i in q.incidents &&
      q.incidents[i] == (if Resolves(o) && Resolvable(p.incidents, p.active, k - 1, i)
                         then MarkResolved(p.incidents[i], now) else p.incidents[i]) &&
      (i in q.active <==> i in p.active && !(Resolves(o) && Resolvable(p.incidents, p.active, k - 1, i)))
  {
    var p := PassUpTo(st, metrics, now, k - 1);
    if k - 1 in p.rules && p.rules[k - 1].enabled {
      StepOld(p, k - 1, metrics, now, i);
    }
  }

  /** One whole pass: the rules are unchanged; every rule state is the one
      observation of the pass; a disabled rule, or one whose metric is
      absent, keeps its state, creates nothing and resolves nothing; new
      incidents are exactly one per firing rule; and an old incident is
      resolved exactly when its rule cleared while it was ACTIVE. */
  lemma PassFacts(st: Store, metrics: map<string, real>, now: int)
    requires StoreValid(st)
    ensures var p := Pass(st, metrics, now);
      StoreValid(p) && p.rules == st.rules &&
      (forall r: Id :: Get(p.ruleStates, r) == StateAfterPass(st, metrics, now, r)) &&
      (forall r :: r in st.rules && (!st.rules[r].enabled || st.rules[r].metric !in metrics) ==>
         Get(p.ruleStates, r) == Get(st.ruleStates, r) && !Fires(st, metrics, now, r) && !Clears(st, metrics, now, r)) &&
      (forall i :: i in p.incidents <==> i in st.incidents || st.nextId <= i < p.nextId) &&
      (forall i :: st.nextId <= i < p.nextId ==> i in p.active && Fires(st, metrics, now, p.incidents[i].ruleId)) &&
      (forall i, j :: st.nextId <= i < j < p.nextId ==> p.incidents[i].ruleId != p.incidents[j].ruleId) &&
      (forall r: Id :: Fires(st, metrics, now, r) ==>
         exists i :: st.nextId <= i < p.nextId && i in p.incidents && p.incidents[i].ruleId == r) &&
      (forall i :: i in st.incidents ==> OldIncidentAfter(st, p, metrics, now, st.nextId, i))
  {
    PassValid(st, metrics, now, st.nextId);
    PassRuleStates(st, metrics, now, st.nextId);
    PassNewIncidents(st, metrics, now, st.nextId);
    PassFiringRulesRecorded(st, metrics, now, st.nextId);
    PassOldIncidents(st, metrics, now, st.nextId);
  }
  // ---------------------------------------------------------------------
  // The engine
  // ---------------------------------------------------------------------

  class Engine {
    var rules: map<Id, Rule>
    var incidents: map<Id, Incident>
    var active: set<Id>
    var ruleStates: map<Id, RuleState>
    var nextId: nat

    /** The engine's tables as one value. */
    function State(): Store
      reads this
    {
      Store(rules, incidents, active, ruleStates, nextId)
    }

    ghost predicate Valid()
      reads this
    {
      StoreValid(State())
    }

    /** A new engine over an empty store, after the default rules were
        installed. */
    constructor (now: int)
      ensures Valid()
      ensures incidents == map[] && active == {} && ruleStates == map[]
      ensures nextId == 4
      ensures forall k: Id :: k in rules <==> k < 4
      ensures forall k :: 0 <= k < 4 ==> rules[k] == DefaultRule(k, k, now)
    {
      rules := map[];
      incidents := map[];
      active := {};
      ruleStates := map[];
      nextId := 0;
      new;
      InitializeDefaultRules(now);
      forall k | 0 <= k < 4 ensures rules[k] == DefaultRule(k, k, now) {
        assert rules[k] == DefaultRule(k - 0, k, now);
      }
    }

    /** Installs the four default rules when there are no rules at all. */
    method InitializeDefaultRules(now: int)
      requires Valid()
      modifies this
      ensures Valid()
      ensures incidents == old(incidents) && active == old(active) && ruleStates == old(ruleStates)
      ensures old(rules) != map[] ==> rules == old(rules) && nextId == old(nextId)
      ensures old(rules) == map[] ==>
        nextId == old(nextId) + 4 &&
        (forall j :: j in rules <==> old(nextId) <= j < nextId) &&
        (forall j :: old(nextId) <= j < nextId ==> rules[j] == DefaultRule(j - old(nextId), j, now))
    {
      if rules == map[] {
        var k := 0;
        while k < 4
          invariant 0 <= k <= 4
          invariant nextId == old(nextId) + k
          invariant forall j :: j in rules <==> old(nextId) <= j < nextId
          invariant forall j :: old(nextId) <= j < nextId ==> rules[j] == DefaultRule(j - old(nextId), j, now)
          invariant Valid()
          invariant incidents == old(incidents) && active == old(active) && ruleStates == old(ruleStates)
        {
          InstallDefaultRule(k, now);
          k := k + 1;
        }
      }
    }

    /** One step of `_initialize_default_rules`: default rule `k` under the
        next id. */
    method InstallDefaultRule(k: nat, now: int)
      requires Valid() && k < 4
      modifies this
      ensures Valid()
      ensures rules == old(rules)[old(nextId) := DefaultRule(k, old(nextId), now)] && nextId == old(nextId) + 1
      ensures incidents == old(incidents) && active == old(active) && ruleStates == old(ruleStates)
    {
      InstallKeepsValid(State(), k, now);
      rules := rules[nextId := DefaultRule(k, nextId, now)];
      nextId := nextId + 1;
    }

    /** `list(self.incidents.values())`, in insertion order. */
    function AllIncidents(): (r: seq<Incident>)
      reads this
      requires Valid()
      ensures forall x :: x in r <==> x in incidents.Values
    {
      InKeyOrderMembers(incidents, incidents.Keys, nextId);
      InKeyOrder(incidents, incidents.Keys, nextId)
    }

    /** `get_active_incidents`: the incidents of the active table. */
    function ActiveIncidents(): (r: seq<Incident>)
      reads this
      requires Valid()
      ensures forall x :: x in r <==> exists i :: i in active && incidents[i] == x
    {
      InKeyOrderMembers(incidents, active, nextId);
      InKeyOrder(incidents, active, nextId)
    }

    /** `get_recent_incidents`: incidents started at or after `now - hours`. */
    function RecentIncidents(hours: int, now: int): (r: seq<Incident>)
      reads this
      requires Valid()
      ensures forall x :: x in r <==> x in incidents.Values && x.startedAt >= now - hours * 3600
    {
      FilterMembers(AllIncidents(), StartedFrom(now - hours * 3600));
      Filter(AllIncidents(), StartedFrom(now - hours * 3600))
    }

    /** `get_alert_summary` */
    function GetAlertSummary(now: int): Summary
      reads this
      requires Valid()
    {
      SummaryOf(AllIncidents(), ActiveIncidents(), DayStart(now))
    }

    /** `_create_incident`: an ACTIVE incident for `rule` under a fresh id,
        entered in both tables. Notification sending is not modelled. */
    method CreateIncident(rule: Rule, value: real, now: int) returns (id: Id)
      requires Valid()
      modifies this
      ensures Valid()
      ensures id == old(nextId) && id !in old(incidents)
      ensures State() == WithIncident(old(State()), rule, value, now)
    {
      id := nextId;
      incidents := incidents[id := NewIncident(id, rule, value, now)];
      active := active + {id};
      nextId := nextId + 1;
    }

    /** `_auto_resolve_incidents`: walks the active table and resolves every
        ACTIVE incident of rule `rid`. */
    method AutoResolveIncidents(rid: Id, now: int)
      requires Valid()
      modifies this
      ensures Valid()
      ensures State() == AutoResolved(old(State()), rid, now)
    {
      ghost var i0 := incidents;
      ghost var a0 := active;
      ghost var gone := ResolvedIds(i0, a0, rid);
      var todo := active;
      while todo != {}
        invariant a0 <= i0.Keys && todo <= a0 && active <= a0
        invariant active == a0 - (gone - todo)
        invariant incidents == ResolvedAmong(i0, gone - todo, now)
        invariant rules == old(rules) && ruleStates == old(ruleStates) && nextId == old(nextId)
        decreases todo
      {
        var i :| i in todo;
        AutoResolveStep(i0, a0, rid, todo, i, now);
        var inc := incidents[i];
        if inc.ruleId == rid && inc.status == Active {
          incidents := incidents[i := MarkResolved(inc, now)];
          active := active - {i};
        }
        todo := todo - {i};
      }
      assert gone - todo == gone;
      AutoResolvedFacts(old(State()), rid, now);
    }

    /** `_evaluate_rule`: one observation of rule `id`, creating or resolving
        incidents as the state machine says. */
    method EvaluateRule(id: Id, metrics: map<string, real>, now: int)
      requires Valid() && id in rules
      modifies this
      ensures Valid()
      ensures State() == EvaluatedRule(old(State()), id, metrics, now)
    {
      var rule := rules[id];
      if rule.metric !in metrics { return; }
      var s := Observe(rule, Get(ruleStates, id), metrics[rule.metric], now);
      if s.fire {
        var _ := CreateIncident(rule, metrics[rule.metric], now);
      } else if s.resolve {
        AutoResolveIncidents(id, now);
      }
      ruleStates := ruleStates[id := s.state];
    }

    /** `evaluate_metrics`: every enabled rule in insertion order. */
    method EvaluateMetrics(metrics: map<string, real>, now: int)
      requires Valid()
      modifies this
      ensures Valid()
      ensures State() == Pass(old(State()), metrics, now)
    {
      var n := nextId;
      var k := 0;
      while k < n
        invariant 0 <= k <= n
        invariant Valid()
        invariant State() == PassUpTo(old(State()), metrics, now, k)
      {
        if k in rules && rules[k].enabled {
          EvaluateRule(k, metrics, now);
        }
        k := k + 1;
      }
    }

    /** `acknowledge_incident` */
    method AcknowledgeIncident(id: Id, user: string, comment: Option<string>, now: int)
      requires Valid()
      modifies this
      ensures Valid()
      ensures State() == AfterAcknowledge(old(State()), id, user, comment, now)
    {
      if id in incidents {
        var inc := incidents[id];
        incidents := incidents[id := inc.(status := Acknowledged, acknowledgedAt := Some(now),
                                          acknowledgedBy := Some(user),
                                          context := WithComment(inc.context, "acknowledgment_comment", comment))];
      }
    }

    /** `resolve_incident` */
    method ResolveIncident(id: Id, comment: Option<string>, now: int)
      requires Valid()
      modifies this
      ensures Valid()
      ensures State() == AfterResolve(old(State()), id, comment, now)
    {
      if id in incidents {
        var inc := incidents[id];
        incidents := incidents[id := inc.(status := Resolved, resolvedAt := Some(now),
                                          context := WithComment(inc.context, "resolution_comment", comment))];
        active := active - {id};
      }
    }

    /** `suppress_incident` */
    method SuppressIncident(id: Id, minutes: int, now: int)
      requires Valid()
      modifies this
      ensures Valid()
      ensures State() == AfterSuppress(old(State()), id, minutes, now)
    {
      if id in incidents {
        incidents := incidents[id := incidents[id].(status := Suppressed,
                                                    suppressedUntil := Some(now + minutes * 60))];
      }
    }
  }
}
