/**
 * The log monitor: lines read from system log files are classified by
 * level, stamped, kept in a buffer of the 1000 most recent entries and
 * counted per level; the buffer can be queried newest first and its error
 * entries grouped by keyword.
 */
module LogMonitor {
  import opened Common
  import opened LogText

  // ---------------------------------------------------------------------
  // Levels
  // ---------------------------------------------------------------------

  datatype Level = Error | Warning | Info | Debug

  function LevelName(l: Level): string
  {
    match l
    case Error => "ERROR"
    case Warning => "WARNING"
    case Info => "INFO"
    case Debug => "DEBUG"
  }

  const ErrorWords: seq<string> := ["ERROR", "error", "Error", "FAILED", "failed", "Failed", "CRITICAL", "critical", "Critical"]
  const WarningWords: seq<string> := ["WARNING", "warning", "Warning", "WARN", "warn", "Warn"]
  const InfoWords: seq<string> := ["INFO", "info", "Info", "NOTICE", "notice", "Notice"]
  const DebugWords: seq<string> := ["DEBUG", "debug", "Debug", "TRACE", "trace", "Trace"]

  /** The level patterns in the order the monitor's dictionary holds them. */
  const LevelPatterns: seq<(Level, seq<string>)> :=
    [(Error, ErrorWords), (Warning, WarningWords), (Info, InfoWords), (Debug, DebugWords)]

  /** The level of a line: the first level, in the order ERROR, WARNING,
      INFO, DEBUG, one of whose words occurs in the line as a whole word;
      INFO when none does. */
  function DetectLevel(line: string): (r: Level)
    ensures r == Error <==> HasAnyWord(line, ErrorWords)
    ensures r == Warning <==> !HasAnyWord(line, ErrorWords) && HasAnyWord(line, WarningWords)
    ensures r == Debug <==>
      !HasAnyWord(line, ErrorWords) && !HasAnyWord(line, WarningWords) &&
      !HasAnyWord(line, InfoWords) && HasAnyWord(line, DebugWords)
    ensures r == Info <==>
      !HasAnyWord(line, ErrorWords) && !HasAnyWord(line, WarningWords) &&
      (HasAnyWord(line, InfoWords) || !HasAnyWord(line, DebugWords))
  {
    var found := ws => HasAnyWord(line, ws);
    var r := FirstTag(LevelPatterns, found);
    assert LevelPatterns[0] == (Error, ErrorWords) && LevelPatterns[1] == (Warning, WarningWords) &&
      LevelPatterns[2] == (Info, InfoWords) && LevelPatterns[3] == (Debug, DebugWords);
    assert r.Some? ==> (HasAnyWord(line, LevelPatterns[LevelRank(r.value)].1) &&
      forall j :: 0 <= j < LevelRank(r.value) ==> !HasAnyWord(line, LevelPatterns[j].1)) by {
      if r.Some? {
        var k :| 0 <= k < |LevelPatterns| && LevelPatterns[k].0 == r.value && found(LevelPatterns[k].1) &&
          forall j :: 0 <= j < k ==> !found(LevelPatterns[j].1);
        assert k == LevelRank(r.value);
      }
    }
    match r
    case Some(l) => l
    case None => Info
  }

  /** A level's position in the pattern table. */
  function LevelRank(l: Level): nat
  {
    match l
    case Error => 0
    case Warning => 1
    case Info => 2
    case Debug => 3
  }

  // ---------------------------------------------------------------------
  // Timestamps inside a line
  // ---------------------------------------------------------------------

  /** The three timestamp shapes, in the order they are tried:
      `Jan 15 14:30:25`, `2024-01-15 14:30:25` and `01/15/2024 14:30:25`. */
  datatype TimePattern = Syslog | Dashed | Slashed

  const TimePatterns: seq<TimePattern> := [Syslog, Dashed, Slashed]

  /** `\d{n}` at `i`. */
  predicate DigitsAt(s: string, i: int, n: nat)
  {
    0 <= i && i + n <= |s| && forall k :: i <= k < i + n ==> IsDigit(s[k])
  }

  /** `\d{2}:\d{2}:\d{2}` at `i`. */
  predicate ClockAt(s: string, i: int)
  {
    i + 8 <= |s| && DigitsAt(s, i, 2) && s[i + 2] == ':' && DigitsAt(s, i + 3, 2) &&
    s[i + 5] == ':' && DigitsAt(s, i + 6, 2)
  }

  /** `\s+\d{2}:\d{2}:\d{2}` at `i`: where the match ends, if there is one. */
  function SpacedClockEnd(s: string, i: int): (r: Option<int>)
    requires 0 <= i <= |s|
    ensures r.Some? ==> i < r.value <= |s|
  {
    var b := RunEnd(s, i, IsSpace);
    if b > i && ClockAt(s, b) then Some(b + 8) else None
  }

  /** Where a match of the pattern tried at `i` ends, if there is one.
      Every repetition in these patterns is followed by a character that
      the repeated class cannot match, so the greedy reading is the only
      one. */
  function MatchEnd(p: TimePattern, s: string, i: int): (r: Option<int>)
    requires 0 <= i <= |s|
    ensures r.Some? ==> i < r.value <= |s|
  {
    match p
    case Syslog => SyslogEnd(s, i)
    case Dashed => DashedEnd(s, i)
    case Slashed => SlashedEnd(s, i)
  }

  /** `\w{3}\s+\d{1,2}\s+\d{2}:\d{2}:\d{2}` */
  function SyslogEnd(s: string, i: int): (r: Option<int>)
    requires 0 <= i <= |s|
    ensures r.Some? ==> i < r.value <= |s|
  {
    if i + 3 <= |s| && IsWordChar(s[i]) && IsWordChar(s[i + 1]) && IsWordChar(s[i + 2]) then
      var a := RunEnd(s, i + 3, IsSpace);
      if a == i + 3 then None
      else if DigitsAt(s, a, 2) then SpacedClockEnd(s, a + 2)
      else if DigitsAt(s, a, 1) then SpacedClockEnd(s, a + 1)
      else None
    else None
  }

  /** `\d{4}-\d{2}-\d{2}\s+\d{2}:\d{2}:\d{2}` */
  function DashedEnd(s: string, i: int): (r: Option<int>)
    requires 0 <= i <= |s|
    ensures r.Some? ==> i < r.value <= |s|
  {
    if i + 10 <= |s| && DigitsAt(s, i, 4) && s[i + 4] == '-' && DigitsAt(s, i + 5, 2) &&
       s[i + 7] == '-' && DigitsAt(s, i + 8, 2)
    then SpacedClockEnd(s, i + 10)
    else None
  }

  /** `\d{2}/\d{2}/\d{4}\s+\d{2}:\d{2}:\d{2}` */
  function SlashedEnd(s: string, i: int): (r: Option<int>)
    requires 0 <= i <= |s|
    ensures r.Some? ==> i < r.value <= |s|
  {
    if i + 10 <= |s| && DigitsAt(s, i, 2) && s[i + 2] == '/' && DigitsAt(s, i + 3, 2) &&
       s[i + 5] == '/' && DigitsAt(s, i + 6, 4)
    then SpacedClockEnd(s, i + 10)
    else None
  }

  /** The text the pattern matches at `i` (its only group spans the whole
      pattern). */
  function GroupAt(p: TimePattern, s: string, i: int): Option<string>
  {
    if 0 <= i <= |s| then
      match MatchEnd(p, s, i)
      case Some(e) => Some(s[i..e])
      case None => None
    else None
  }

  /** `re.search(pattern, line).group(1)`: the leftmost match. */
  function FirstMatch(p: TimePattern, s: string): Option<string>
  {
    Search(i => GroupAt(p, s, i), 0, |s|)
  }

  /** The leftmost match of the first pattern, in list order, that matches
      anywhere in the line. */
  function FirstPatternMatch(s: string, ps: seq<TimePattern>): (r: Option<string>)
    ensures r.None? <==> forall k :: 0 <= k < |ps| ==> FirstMatch(ps[k], s).None?
    ensures r.Some? ==> exists k :: 0 <= k < |ps| && FirstMatch(ps[k], s) == r && (forall j :: 0 <= j < k ==> FirstMatch(ps[j], s).None?)
  {
    if ps == [] then None
    else if FirstMatch(ps[0], s).Some? then FirstMatch(ps[0], s)
    else
      assert forall k :: 1 <= k < |ps| ==> ps[1..][k - 1] == ps[k];
      FirstPatternMatch(s, ps[1..])
  }

  /** `_extract_timestamp`: the leftmost match of the first pattern, in
      list order, that matches anywhere in the line; None when none does. */
  function ExtractTimestamp(line: string): (r: Option<string>)
    ensures r.None? <==> forall k :: 0 <= k < |TimePatterns| ==> FirstMatch(TimePatterns[k], line).None?
    ensures r.Some? ==> exists k :: 0 <= k < |TimePatterns| && FirstMatch(TimePatterns[k], line) == r && (forall j :: 0 <= j < k ==> FirstMatch(TimePatterns[j], line).None?)
  {
    FirstPatternMatch(line, TimePatterns)
  }

  /** A line has no timestamp exactly when none of the three shapes
      matches at any position. */
  lemma NoTimestamp(line: string)
    ensures ExtractTimestamp(line).None? <==> forall p: TimePattern, i :: 0 <= i <= |line| ==> MatchEnd(p, line, i).None?
  {
    assert TimePatterns[0] == Syslog && TimePatterns[1] == Dashed && TimePatterns[2] == Slashed && |TimePatterns| == 3;
    assert ExtractTimestamp(line).None? <==>
      FirstMatch(Syslog, line).None? && FirstMatch(Dashed, line).None? && FirstMatch(Slashed, line).None?;
    FirstMatchNone(Syslog, line);
    FirstMatchNone(Dashed, line);
    FirstMatchNone(Slashed, line);
  }

  /** A pattern finds nothing exactly when it matches at no position. */
  lemma FirstMatchNone(p: TimePattern, s: string)
    ensures FirstMatch(p, s).None? <==> forall i :: 0 <= i <= |s| ==> MatchEnd(p, s, i).None?
  {
    var f := i => GroupAt(p, s, i);
    assert FirstMatch(p, s) == Search(f, 0, |s|);
    SearchFinds(f, 0, |s|);
    assert forall i :: 0 <= i <= |s| ==> (f(i).None? <==> MatchEnd(p, s, i).None?);
  }

  /** A pattern's match is its leftmost one: the text matched at a
      position where the pattern matches, with no match further left. */
  lemma FirstMatchLeftmost(p: TimePattern, s: string)
    requires FirstMatch(p, s).Some?
    ensures exists i :: 0 <= i <= |s| && MatchEnd(p, s, i).Some? && FirstMatch(p, s) == Some(s[i..MatchEnd(p, s, i).value]) && (forall j :: 0 <= j < i ==> MatchEnd(p, s, j).None?)
  {
    var f := i => GroupAt(p, s, i);
    assert FirstMatch(p, s) == Search(f, 0, |s|);
    SearchFinds(f, 0, |s|);
    var i :| 0 <= i <= |s| && f(i) == FirstMatch(p, s) && forall j :: 0 <= j < i ==> f(j).None?;
    assert GroupAt(p, s, i) == FirstMatch(p, s);
    assert forall j :: 0 <= j < i ==> GroupAt(p, s, j).None? by {
      forall j | 0 <= j < i ensures GroupAt(p, s, j).None? {
        assert f(j).None?;
      }
    }
    LeftmostAt(p, s, i);
  }

  /** Where `GroupAt` gives a match with no match further left, the
      pattern matches there and nowhere further left. */
  lemma LeftmostAt(p: TimePattern, s: string, i: int)
    requires 0 <= i <= |s| && GroupAt(p, s, i).Some?
    requires forall j :: 0 <= j < i ==> GroupAt(p, s, j).None?
    ensures MatchEnd(p, s, i).Some? && GroupAt(p, s, i) == Some(s[i..MatchEnd(p, s, i).value])
    ensures forall j :: 0 <= j < i ==> MatchEnd(p, s, j).None?
  {
    forall j | 0 <= j < i ensures MatchEnd(p, s, j).None? {
      assert GroupAt(p, s, j).None?;
    }
  }

  // ---------------------------------------------------------------------
  // Entries, the bounded buffer and the counters
  // ---------------------------------------------------------------------

  /** One buffered line; `timestamp` is when it was processed, in seconds. */
  datatype LogEntry = LogEntry(timestamp: int, logType: string, level: Level, message: string, originalTimestamp: Option<string>)

  datatype LogStats = LogStats(totalLines: nat, errorCount: nat, warningCount: nat, infoCount: nat, debugCount: nat, lastUpdated: int)

  const MaxRecentLogs: nat := 1000

  function EntryOf(logType: string, line: string, now: int): LogEntry
  {
    LogEntry(now, logType, DetectLevel(line), line, ExtractTimestamp(line))
  }

  /** `deque.append` on a deque of at most 1000 entries: the entry goes at
      the end and, when the deque is full, the oldest entry is dropped. */
  function BoundedAppend(buf: seq<LogEntry>, e: LogEntry): (r: seq<LogEntry>)
    requires |buf| <= MaxRecentLogs
    ensures |r| <= MaxRecentLogs && r != [] && r[|r| - 1] == e
    ensures |buf| < MaxRecentLogs ==> r == buf + [e]
    ensures |buf| == MaxRecentLogs ==> r == buf[1..] + [e]
  {
    LastN(buf + [e], MaxRecentLogs)
  }

  function LevelCount(st: LogStats, l: Level): nat
  {
    match l
    case Error => st.errorCount
    case Warning => st.warningCount
    case Info => st.infoCount
    case Debug => st.debugCount
  }

  function CounterSum(st: LogStats): nat
  {
    st.errorCount + st.warningCount + st.infoCount + st.debugCount
  }

  /** `_update_stats`: one more line, counted under exactly one level. */
  function Counted(st: LogStats, l: Level, now: int): (r: LogStats)
    ensures r.totalLines == st.totalLines + 1 && r.lastUpdated == now
    ensures forall m: Level :: LevelCount(r, m) == LevelCount(st, m) + (if m == l then 1 else 0)
    ensures CounterSum(r) == CounterSum(st) + 1
  {
    var st := st.(totalLines := st.totalLines + 1, lastUpdated := now);
    match l
    case Error => st.(errorCount := st.errorCount + 1)
    case Warning => st.(warningCount := st.warningCount + 1)
    case Info => st.(infoCount := st.infoCount + 1)
    case Debug => st.(debugCount := st.debugCount + 1)
  }

  // ---------------------------------------------------------------------
  // Queries
  // ---------------------------------------------------------------------

  /** A filter argument is applied only when it is given and non-empty. */
  predicate FilterActive(f: Option<string>)
  {
    f.Some? && f.value != ""
  }

  predicate Selected(e: LogEntry, levelFilter: Option<string>, typeFilter: Option<string>)
  {
    (!FilterActive(levelFilter) || LevelName(e.level) == levelFilter.value) &&
    (!FilterActive(typeFilter) || e.logType == typeFilter.value)
  }

  /** The entries that pass both filters, in buffer order. */
  function Matching(logs: seq<LogEntry>, levelFilter: Option<string>, typeFilter: Option<string>): seq<LogEntry>
  {
    if logs == [] then []
    else
      var e := logs[|logs| - 1];
      Matching(logs[..|logs| - 1], levelFilter, typeFilter) + (if Selected(e, levelFilter, typeFilter) then [e] else [])
  }

  /** An entry is matched exactly when it is in the buffer and passes both
      filters. */
  lemma {:induction false} MatchingMembers(logs: seq<LogEntry>, levelFilter: Option<string>, typeFilter: Option<string>)
    ensures forall e :: e in Matching(logs, levelFilter, typeFilter) <==> e in logs && Selected(e, levelFilter, typeFilter)
  {
    if logs != [] {
      var init := logs[..|logs| - 1];
      var e := logs[|logs| - 1];
      MatchingMembers(init, levelFilter, typeFilter);
      assert logs == init + [e];
    }
  }

  function Reverse<T>(s: seq<T>): (r: seq<T>)
    ensures |r| == |s|
    ensures forall i :: 0 <= i < |s| ==> r[i] == s[|s| - 1 - i]
  {
    seq(|s|, i requires 0 <= i < |s| => s[|s| - 1 - i])
  }

  function LevelIs(level: string): LogEntry -> bool
  {
    (e: LogEntry) => LevelName(e.level) == level
  }

  function TypeIs(logType: string): LogEntry -> bool
  {
    (e: LogEntry) => e.logType == logType
  }

  /** `[log for log in logs if log['level'] == level_filter]` when the
      filter is given. */
  function ByLevel(logs: seq<LogEntry>, levelFilter: Option<string>): seq<LogEntry>
  {
    if FilterActive(levelFilter) then Filter(logs, LevelIs(levelFilter.value)) else logs
  }

  function ByType(logs: seq<LogEntry>, typeFilter: Option<string>): seq<LogEntry>
  {
    if FilterActive(typeFilter) then Filter(logs, TypeIs(typeFilter.value)) else logs
  }

  /** Filtering a reversed buffer gives the matching entries reversed. */
  lemma {:induction false} SelectionOfReversed(logs: seq<LogEntry>, levelFilter: Option<string>, typeFilter: Option<string>)
    ensures ByType(ByLevel(Reverse(logs), levelFilter), typeFilter) == Reverse(Matching(logs, levelFilter, typeFilter))
  {
    if logs != [] {
      var init := logs[..|logs| - 1];
      var e := logs[|logs| - 1];
      assert logs == init + [e];
      SelectionOfReversed(init, levelFilter, typeFilter);
      ReverseSnoc(init, e);
      SelectionCons(e, Reverse(init), levelFilter, typeFilter);
      var m := Matching(init, levelFilter, typeFilter);
      if Selected(e, levelFilter, typeFilter) {
        ReverseSnoc(m, e);
      } else {
        assert m + [] == m;
      }
    }
  }

  lemma ReverseSnoc<T>(s: seq<T>, x: T)
    ensures Reverse(s + [x]) == [x] + Reverse(s)
  {
  }

  /** Both filters, applied to a list with a first entry, keep that entry
      exactly when it is selected. */
  lemma SelectionCons(e: LogEntry, rest: seq<LogEntry>, levelFilter: Option<string>, typeFilter: Option<string>)
    ensures ByType(ByLevel([e] + rest, levelFilter), typeFilter) ==
      (if Selected(e, levelFilter, typeFilter) then [e] else []) + ByType(ByLevel(rest, levelFilter), typeFilter)
  {
    assert ([e] + rest)[0] == e && ([e] + rest)[1..] == rest;
    var head := if FilterActive(levelFilter) && LevelName(e.level) != levelFilter.value then [] else [e];
    assert ByLevel([e] + rest, levelFilter) == head + ByLevel(rest, levelFilter);
    if FilterActive(typeFilter) {
      FilterAppend(head, ByLevel(rest, levelFilter), TypeIs(typeFilter.value));
    }
  }

  /** The first `count` of a reversed list are the last `count` reversed. */
  lemma TakeOfReversed<T>(s: seq<T>, count: int)
    requires count > 0
    ensures Take(Reverse(s), count) == Reverse(LastN(s, count))
  {
    var n := if count <= |s| then count else |s|;
    assert Take(Reverse(s), count) == Reverse(s)[..n];
    assert LastN(s, count) == s[|s| - n..];
    ReversedSuffix(s, n);
  }

  lemma ReversedSuffix<T>(s: seq<T>, n: nat)
    requires n <= |s|
    ensures Reverse(s)[..n] == Reverse(s[|s| - n..])
  {
    var a := Reverse(s)[..n];
    var b := Reverse(s[|s| - n..]);
    forall i | 0 <= i < n ensures a[i] == b[i] {
      assert b[i] == s[|s| - n..][n - 1 - i];
    }
  }

  // ---------------------------------------------------------------------
  // Error patterns
  // ---------------------------------------------------------------------

  datatype ErrorCategory = FailedOperations | NetworkErrors | PermissionErrors | TimeoutErrors | OtherErrors

  function CategoryName(c: ErrorCategory): string
  {
    match c
    case FailedOperations => "failed_operations"
    case NetworkErrors => "network_errors"
    case PermissionErrors => "permission_errors"
    case TimeoutErrors => "timeout_errors"
    case OtherErrors => "other_errors"
  }

  const CategoryNames: seq<string> := ["failed_operations", "network_errors", "permission_errors", "timeout_errors", "other_errors"]

  const FailureKeywords: seq<string> := ["failed", "failure"]
  const NetworkKeywords: seq<string> := ["connection", "network"]
  const PermissionKeywords: seq<string> := ["permission", "access"]
  const TimeoutKeywords: seq<string> := ["timeout"]

  /** The keyword groups, tried in this order against the lower-cased
      message. */
  const CategoryKeywords: seq<(ErrorCategory, seq<string>)> :=
    [(FailedOperations, FailureKeywords), (NetworkErrors, NetworkKeywords),
     (PermissionErrors, PermissionKeywords), (TimeoutErrors, TimeoutKeywords)]

  /** The category of an error message: the first keyword group with a
      keyword inside the lower-cased message, otherwise "other". */
  function CategoryOf(message: string): ErrorCategory
  {
    match FirstTag(CategoryKeywords, ws => ContainsAny(Lower(message), ws))
    case Some(c) => c
    case None => OtherErrors
  }

  /** The keyword groups decide in priority order: failed/failure, then
      connection/network, then permission/access, then timeout, and any
      other error is "other". */
  lemma CategoryPriority(message: string)
    ensures var m := Lower(message); var c := CategoryOf(message);
      (c == FailedOperations <==> ContainsAny(m, FailureKeywords)) &&
      (c == NetworkErrors <==> !ContainsAny(m, FailureKeywords) && ContainsAny(m, NetworkKeywords)) &&
      (c == PermissionErrors <==>
        !ContainsAny(m, FailureKeywords) && !ContainsAny(m, NetworkKeywords) && ContainsAny(m, PermissionKeywords)) &&
      (c == TimeoutErrors <==>
        !ContainsAny(m, FailureKeywords) && !ContainsAny(m, NetworkKeywords) &&
        !ContainsAny(m, PermissionKeywords) && ContainsAny(m, TimeoutKeywords)) &&
      (c == OtherErrors <==>
        !ContainsAny(m, FailureKeywords) && !ContainsAny(m, NetworkKeywords) &&
        !ContainsAny(m, PermissionKeywords) && !ContainsAny(m, TimeoutKeywords))
  {
    var m := Lower(message);
    var found := ws => ContainsAny(m, ws);
    var r := FirstTag(CategoryKeywords, found);
    assert CategoryKeywords[0].1 == FailureKeywords && CategoryKeywords[1].1 == NetworkKeywords &&
      CategoryKeywords[2].1 == PermissionKeywords && CategoryKeywords[3].1 == TimeoutKeywords;
    if r.Some? {
      var k :| 0 <= k < |CategoryKeywords| && CategoryKeywords[k].0 == r.value && found(CategoryKeywords[k].1) &&
        forall j :: 0 <= j < k ==> !found(CategoryKeywords[j].1);
      assert k == CategoryRank(r.value);
    }
  }

  datatype ErrorAnalysis = ErrorAnalysis(totalErrors: nat, errorPatterns: map<string, nat>, analysisPeriodHours: int, mostRecentError: Option<LogEntry>)

  function IsRecentError(since: int): LogEntry -> bool
  {
    (e: LogEntry) => e.level == Error && e.timestamp >= since
  }

  /** The error entries processed at or after `since`, in buffer order. */
  function ErrorLogs(logs: seq<LogEntry>, since: int): seq<LogEntry>
  {
    Filter(logs, IsRecentError(since))
  }

  /** The category name of each error entry, in order. */
  function CategoryLabels(errors: seq<LogEntry>): (r: seq<string>)
    ensures |r| == |errors|
    ensures forall i :: 0 <= i < |r| ==> r[i] == CategoryName(CategoryOf(errors[i].message))
  {
    seq(|errors|, i requires 0 <= i < |errors| => CategoryName(CategoryOf(errors[i].message)))
  }

  lemma CategoryNameListed(c: ErrorCategory)
    ensures CategoryName(c) in CategoryNames
  {
    assert CategoryNames[CategoryRank(c)] == CategoryName(c);
  }

  function CategoryRank(c: ErrorCategory): nat
  {
    match c
    case FailedOperations => 0
    case NetworkErrors => 1
    case PermissionErrors => 2
    case TimeoutErrors => 3
    case OtherErrors => 4
  }

  lemma CategoryNameInjective(c: ErrorCategory, d: ErrorCategory)
    requires CategoryName(c) == CategoryName(d)
    ensures c == d
  {
  }

  /** The category counts of an analysis add up to the number of errors;
      a category appears exactly when some error falls in it. */
  lemma ErrorPatternsAddUp(errors: seq<LogEntry>)
    ensures var counts := Tally(CategoryLabels(errors));
      SumOver(counts, CategoryNames) == |errors| &&
      (forall k :: k in counts ==> k in CategoryNames) &&
      (forall c: ErrorCategory :: CategoryName(c) in counts <==> exists i :: 0 <= i < |errors| && CategoryOf(errors[i].message) == c)
  {
    var labels := CategoryLabels(errors);
    assert Unique(CategoryNames);
    LabelsListed(errors);
    TallySum(labels, CategoryNames);
    TallyCounts(labels);
    LabelsPresent(errors);
  }

  lemma LabelsListed(errors: seq<LogEntry>)
    ensures forall x :: x in CategoryLabels(errors) ==> x in CategoryNames
  {
    var labels := CategoryLabels(errors);
    forall x | x in labels ensures x in CategoryNames {
      var i :| 0 <= i < |labels| && labels[i] == x;
      CategoryNameListed(CategoryOf(errors[i].message));
    }
  }

  lemma LabelsPresent(errors: seq<LogEntry>)
    ensures forall c: ErrorCategory :: CategoryName(c) in CategoryLabels(errors) <==> exists i :: 0 <= i < |errors| && CategoryOf(errors[i].message) == c
  {
    var labels := CategoryLabels(errors);
    forall c: ErrorCategory
      ensures CategoryName(c) in labels <==> exists i :: 0 <= i < |errors| && CategoryOf(errors[i].message) == c
    {
      if CategoryName(c) in labels {
        var i :| 0 <= i < |labels| && labels[i] == CategoryName(c);
        CategoryNameInjective(CategoryOf(errors[i].message), c);
      }
      if exists i :: 0 <= i < |errors| && CategoryOf(errors[i].message) == c {
        var i :| 0 <= i < |errors| && CategoryOf(errors[i].message) == c;
        assert labels[i] == CategoryName(c);
      }
    }
  }

  /** The counting loop of `analyze_error_patterns`: each error's category
      name counted into a dictionary. */
  method CountCategories(errors: seq<LogEntry>) returns (patterns: map<string, nat>)
    ensures patterns == Tally(CategoryLabels(errors))
  {
    var labels := CategoryLabels(errors);
    patterns := map[];
    for i := 0 to |labels|
      invariant patterns == Tally(labels[..i])
    {
      var name := labels[i];
      TallyPrefix(labels, i);
      patterns := patterns[name := CountOf(patterns, name) + 1];
    }
    assert labels[..|errors|] == labels;
  }

  /** The most recent error reported is the first qualifying entry of the
      buffer: every entry before it is an earlier-processed one that is not
      a recent error. */
  lemma MostRecentErrorIsFirst(logs: seq<LogEntry>, since: int)
    requires ErrorLogs(logs, since) != []
    ensures exists i :: 0 <= i < |logs| && logs[i] == ErrorLogs(logs, since)[0] && logs[i].level == Error && logs[i].timestamp >= since && (forall j :: 0 <= j < i ==> !(logs[j].level == Error && logs[j].timestamp >= since))
  {
    FilterFirst(logs, IsRecentError(since));
  }

  /** As intended: the newest error of the window. The buffer holds
      entries oldest first, so this is the last qualifying entry. */
  function NewestError(logs: seq<LogEntry>, since: int): Option<LogEntry>
  {
    var errors := ErrorLogs(logs, since);
    if errors == [] then None else Some(errors[|errors| - 1])
  }

  /** The newest error is an error of the window, and no entry processed
      after it is one. */
  lemma NewestErrorIsLast(logs: seq<LogEntry>, since: int)
    requires ErrorLogs(logs, since) != []
    ensures exists i :: (0 <= i < |logs| && Some(logs[i]) == NewestError(logs, since) &&
                         logs[i].level == Error && logs[i].timestamp >= since &&
                         (forall j :: i < j < |logs| ==> !(logs[j].level == Error && logs[j].timestamp >= since)))
  {
    FilterLast(logs, IsRecentError(since));
  }

  /** As written: `error_logs[0]` is the oldest error of the window, so
      with two different errors processed in turn the one reported as the
      most recent is the first, not the newest. */
  lemma ReportedErrorIsOldest(a: LogEntry, b: LogEntry, since: int)
    requires a.level == Error && b.level == Error && a.timestamp >= since && b.timestamp >= since && a != b
    ensures var errors := ErrorLogs([a, b], since);
      errors != [] && errors[0] == a && NewestError([a, b], since) == Some(b) && Some(errors[0]) != NewestError([a, b], since)
  {
    var p := IsRecentError(since);
    assert p(a) && p(b);
    assert [a, b][1..] == [b];
    assert [b][1..] == [];
    assert Filter([b], p) == [b];
    assert Filter([a, b], p) == [a] + Filter([b], p);
  }

  // ---------------------------------------------------------------------
  // The monitor
  // ---------------------------------------------------------------------

  class Monitor {
    var recentLogs: seq<LogEntry>
    var stats: LogStats

    /** The buffer never exceeds its bound and every line counted is
        counted under one level. */
    predicate Valid()
      reads this
    {
      |recentLogs| <= MaxRecentLogs && stats.totalLines == CounterSum(stats)
    }

    constructor(now: int)
      ensures Valid()
      ensures recentLogs == [] && stats == LogStats(0, 0, 0, 0, 0, now)
    {
      recentLogs := [];
      stats := LogStats(0, 0, 0, 0, 0, now);
    }

    /** `_process_log_line`: a blank line is ignored; any other line is
        classified, buffered and counted. */
    method ProcessLogLine(logType: string, line: string, now: int)
      requires Valid()
      modifies this
      ensures Valid()
      ensures Strip(line) == [] ==> recentLogs == old(recentLogs) && stats == old(stats)
      ensures Strip(line) != [] ==>
        recentLogs == BoundedAppend(old(recentLogs), EntryOf(logType, line, now)) &&
        stats == Counted(old(stats), DetectLevel(line), now)
    {
      if Strip(line) == [] {
        return;
      }
      var level := DetectLevel(line);
      var entry := LogEntry(now, logType, level, line, ExtractTimestamp(line));
      recentLogs := BoundedAppend(recentLogs, entry);
      UpdateStats(level, now);
    }

    /** `_update_stats`, incrementing the counters in place. */
    method UpdateStats(level: Level, now: int)
      modifies this
      ensures stats == Counted(old(stats), level, now)
      ensures recentLogs == old(recentLogs)
    {
      stats := stats.(totalLines := stats.totalLines + 1);
      match level {
        case Error => stats := stats.(errorCount := stats.errorCount + 1);
        case Warning => stats := stats.(warningCount := stats.warningCount + 1);
        case Info => stats := stats.(infoCount := stats.infoCount + 1);
        case Debug => stats := stats.(debugCount := stats.debugCount + 1);
      }
      stats := stats.(lastUpdated := now);
    }

    /** `get_recent_logs`: newest first, the filters applied, at most
        `count` entries (Python's `logs[:count]`). For a positive count
        these are the `count` most recent matching entries. */
    function GetRecentLogs(count: int, levelFilter: Option<string>, typeFilter: Option<string>): (r: seq<LogEntry>)
      reads this
      ensures forall e :: e in r ==> e in recentLogs && Selected(e, levelFilter, typeFilter)
      ensures count >= 0 ==> |r| <= count
      ensures count == 0 ==> r == []
      ensures count > 0 ==> r == Reverse(LastN(Matching(recentLogs, levelFilter, typeFilter), count))
    {
      SelectionOfReversed(recentLogs, levelFilter, typeFilter);
      MatchingMembers(recentLogs, levelFilter, typeFilter);
      if count > 0 then
        TakeOfReversed(Matching(recentLogs, levelFilter, typeFilter), count);
        Take(ByType(ByLevel(Reverse(recentLogs), levelFilter), typeFilter), count)
      else
        Take(ByType(ByLevel(Reverse(recentLogs), levelFilter), typeFilter), count)
    }

    /** `analyze_error_patterns`: the error entries of the last `hours`
        hours, counted per keyword category. */
    method AnalyzeErrorPatterns(hours: int, now: int) returns (a: ErrorAnalysis)
      ensures var errors := ErrorLogs(recentLogs, now - hours * 3600);
        a.totalErrors == |errors| &&
        a.errorPatterns == Tally(CategoryLabels(errors)) &&
        a.analysisPeriodHours == hours &&
        a.mostRecentError == (if errors == [] then None else Some(errors[0]))
    {
      var errors := ErrorLogs(recentLogs, now - hours * 3600);
      var patterns := CountCategories(errors);
      a := ErrorAnalysis(|errors|, patterns, hours, if errors == [] then None else Some(errors[0]));
    }
  }
}
