/**
 * The alert data model: levels, statuses, categories, rules, incidents and
 * the create/update requests with their field bounds. Times are integer
 * seconds; identifiers are natural numbers handed out fresh by the engine.
 */
module AlertModels {
  import opened Common

  type Id = nat

  datatype Level = Info | Warning | Critical | Emergency

  datatype Status = Active | Acknowledged | Resolved | Suppressed

  datatype Category = System | Performance | Security | Service | Network | Storage

  function LevelValue(l: Level): string
  {
    match l
    case Info => "info"
    case Warning => "warning"
    case Critical => "critical"
    case Emergency => "emergency"
  }

  function StatusValue(s: Status): string
  {
    match s
    case Active => "active"
    case Acknowledged => "acknowledged"
    case Resolved => "resolved"
    case Suppressed => "suppressed"
  }

  function CategoryValue(c: Category): string
  {
    match c
    case System => "system"
    case Performance => "performance"
    case Security => "security"
    case Service => "service"
    case Network => "network"
    case Storage => "storage"
  }

  /** Parsing a query or body value into an enumeration succeeds exactly for
      the enumeration's own values: the enumerations are closed. */
  function ParseLevel(s: string): (r: Option<Level>)
    ensures r.Some? <==> s in {"info", "warning", "critical", "emergency"}
    ensures r.Some? ==> LevelValue(r.value) == s
  {
    if s == "info" then Some(Info)
    else if s == "warning" then Some(Warning)
    else if s == "critical" then Some(Critical)
    else if s == "emergency" then Some(Emergency)
    else None
  }

  function ParseStatus(s: string): (r: Option<Status>)
    ensures r.Some? <==> s in {"active", "acknowledged", "resolved", "suppressed"}
    ensures r.Some? ==> StatusValue(r.value) == s
  {
    if s == "active" then Some(Active)
    else if s == "acknowledged" then Some(Acknowledged)
    else if s == "resolved" then Some(Resolved)
    else if s == "suppressed" then Some(Suppressed)
    else None
  }

  lemma LevelValueInjective(a: Level, b: Level)
    ensures LevelValue(a) == LevelValue(b) ==> a == b
  {
  }

  datatype Rule = Rule(
    id: Id,
    name: string,
    description: Option<string>,
    category: Category,
    metric: string,
    condition: string,
    threshold: real,
    level: Level,
    enabled: bool,
    duration: int,
    coolDown: int,
    autoResolve: bool,
    channels: seq<string>,
    tags: map<string, string>,
    createdAt: int,
    updatedAt: int)

  datatype Incident = Incident(
    id: Id,
    ruleId: Id,
    ruleName: string,
    level: Level,
    category: Category,
    status: Status,
    title: string,
    metricValue: real,
    threshold: real,
    startedAt: int,
    resolvedAt: Option<int>,
    acknowledgedAt: Option<int>,
    acknowledgedBy: Option<string>,
    lastNotification: Option<int>,
    notificationCount: nat,
    suppressedUntil: Option<int>,
    tags: map<string, string>,
    context: map<string, string>)

  /** An `AlertRule` built from its required fields, every other field taking
      its declared default. */
  function RuleWithDefaults(id: Id, name: string, category: Category, metric: string,
                            condition: string, threshold: real, level: Level, now: int): (r: Rule)
    ensures r.id == id && r.metric == metric && r.condition == condition && r.threshold == threshold
    ensures r.enabled && r.duration == 60 && r.coolDown == 300 && r.autoResolve
    ensures r.description == None && r.channels == [] && r.tags == map[]
    ensures r.createdAt == now && r.updatedAt == now
  {
    Rule(id, name, None, category, metric, condition, threshold, level,
         true, 60, 300, true, [], map[], now, now)
  }

  /** The title an incident gets: the rule's name and its level in capitals. */
  function IncidentTitle(rule: Rule): string
  {
    rule.name + " - " + Upper(LevelValue(rule.level))
  }

  /** A freshly created incident for `rule` observed at `value`. */
  function NewIncident(id: Id, rule: Rule, value: real, now: int): (inc: Incident)
    ensures inc.id == id && inc.ruleId == rule.id && inc.status == Active
    ensures inc.level == rule.level && inc.category == rule.category
    ensures inc.metricValue == value && inc.threshold == rule.threshold && inc.startedAt == now
    ensures inc.notificationCount == 0
    ensures inc.resolvedAt.None? && inc.acknowledgedAt.None? && inc.acknowledgedBy.None?
    ensures inc.lastNotification.None? && inc.suppressedUntil.None?
  {
    Incident(id, rule.id, rule.name, rule.level, rule.category, Active, IncidentTitle(rule),
             value, rule.threshold, now, None, None, None, None, 0, None, rule.tags,
             map["metric" := rule.metric, "condition" := rule.condition])
  }

  // ---------------------------------------------------------------------
  // Requests
  // ---------------------------------------------------------------------

  datatype RuleCreate = RuleCreate(
    name: string,
    description: Option<string>,
    category: Category,
    metric: string,
    condition: string,
    threshold: real,
    level: Level,
    duration: int,
    coolDown: int,
    channels: seq<string>,
    tags: map<string, string>)

  predicate DurationInBounds(d: int) { 1 <= d <= 3600 }

  predicate CoolDownInBounds(c: int) { 60 <= c <= 7200 }

  /** Field validation of a create request. */
  predicate RuleCreateValid(req: RuleCreate)
  {
    DurationInBounds(req.duration) && CoolDownInBounds(req.coolDown)
  }

  /** A supplied field is `Some`; an unset one is `None`. */
  datatype RuleUpdate = RuleUpdate(
    name: Option<string>,
    description: Option<string>,
    threshold: Option<real>,
    level: Option<Level>,
    enabled: Option<bool>,
    duration: Option<int>,
    coolDown: Option<int>,
    channels: Option<seq<string>>,
    tags: Option<map<string, string>>)

  /** Field validation of an update request: the bounds apply only to
      supplied fields. */
  predicate RuleUpdateValid(u: RuleUpdate)
  {
    (u.duration.Some? ==> DurationInBounds(u.duration.value)) &&
    (u.coolDown.Some? ==> CoolDownInBounds(u.coolDown.value))
  }

  /** The rule after the supplied fields of `u` are set on it. */
  function ApplyRuleUpdate(rule: Rule, u: RuleUpdate, now: int): (r: Rule)
    ensures r.id == rule.id && r.metric == rule.metric && r.condition == rule.condition
    ensures r.category == rule.category && r.autoResolve == rule.autoResolve
    ensures r.createdAt == rule.createdAt && r.updatedAt == now
    ensures u.threshold.Some? ==> r.threshold == u.threshold.value
    ensures u.threshold.None? ==> r.threshold == rule.threshold
    ensures u.enabled.Some? ==> r.enabled == u.enabled.value
    ensures u.enabled.None? ==> r.enabled == rule.enabled
    ensures u.duration.Some? ==> r.duration == u.duration.value
    ensures u.duration.None? ==> r.duration == rule.duration
    ensures u.coolDown.Some? ==> r.coolDown == u.coolDown.value
    ensures u.coolDown.None? ==> r.coolDown == rule.coolDown
    ensures u == RuleUpdate(None, None, None, None, None, None, None, None, None) ==>
              r == rule.(updatedAt := now)
  {
    rule.(name := Pick(u.name, rule.name),
          description := if u.description.Some? then u.description else rule.description,
          threshold := Pick(u.threshold, rule.threshold),
          level := Pick(u.level, rule.level),
          enabled := Pick(u.enabled, rule.enabled),
          duration := Pick(u.duration, rule.duration),
          coolDown := Pick(u.coolDown, rule.coolDown),
          channels := Pick(u.channels, rule.channels),
          tags := Pick(u.tags, rule.tags),
          updatedAt := now)
  }

  /** A rule built from a valid create request keeps the request's bounds. */
  function RuleFromCreate(id: Id, req: RuleCreate, now: int): (r: Rule)
    ensures r.id == id && r.metric == req.metric && r.condition == req.condition
    ensures r.enabled && r.autoResolve
    ensures RuleCreateValid(req) ==> DurationInBounds(r.duration) && CoolDownInBounds(r.coolDown)
  {
    Rule(id, req.name, req.description, req.category, req.metric, req.condition, req.threshold,
         req.level, true, req.duration, req.coolDown, true, req.channels, req.tags, now, now)
  }
}
