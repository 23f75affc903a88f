/**
 * The basic dashboard server: its routing and its services listing. The
 * listing reads the process table twice, 0.1 s apart, so that the CPU
 * figures mean something; both readings are inputs here.
 */
module DashboardServer {
  import opened Common
  import opened Sorting
  import opened HttpQuery

  // ---------------------------------------------------------------------
  // Routing
  // ---------------------------------------------------------------------

  /** The handlers of the two dashboard servers; the basic one has no
      paginated listing and no static files. */
  datatype Route = Dashboard | SystemInfo | ProcessInfo | NetworkInfo | LogInfo | FilesystemInfo
                 | ServicesInfo | PaginatedServices | StaticFile(path: string) | NotFound

  /** The paths the basic server answers, in the order `do_GET` tests
      them. */
  const BasicPaths: seq<string> :=
    ["/", "/api/system", "/api/processes", "/api/network", "/api/logs", "/api/filesystem", "/api/services"]

  /** The handler `do_GET` calls for a request path. */
  function RouteOf(path: string): Route
  {
    if path == "/" then Dashboard
    else if path == "/api/system" then SystemInfo
    else if path == "/api/processes" then ProcessInfo
    else if path == "/api/network" then NetworkInfo
    else if path == "/api/logs" then LogInfo
    else if path == "/api/filesystem" then FilesystemInfo
    else if path == "/api/services" then ServicesInfo
    else NotFound
  }

  /** Exactly the listed paths have a handler, each its own, and none of
      them the paginated listing or a static file. */
  lemma RouteOfFacts(path: string)
    ensures RouteOf(path) != NotFound <==> path in BasicPaths
    ensures RouteOf(path) != PaginatedServices && !RouteOf(path).StaticFile?
    ensures forall i, j :: 0 <= i < j < |BasicPaths| ==> RouteOf(BasicPaths[i]) != RouteOf(BasicPaths[j])
  {
  }

  // ---------------------------------------------------------------------
  // serve_services_info
  // ---------------------------------------------------------------------

  /** What the first pass reads of a process. */
  datatype FirstInfo = FirstInfo(pid: int, name: Option<string>, status: string)

  /** What the second pass reads of a process; `None` is a field psutil
      could not read (for the CPU figure, a `cpu_percent` call that raised),
      and `createTime` is the start time already formatted. */
  datatype LaterInfo = LaterInfo(pid: int, name: Option<string>, status: string, cpu: Option<real>,
                                 memory: Option<real>, rss: Option<int>, createTime: Option<string>)

  /** One process: `first` is `None` when reading it raised in the first
      pass, `later` when it had gone, or raised, by the second. */
  datatype Proc = Proc(first: Option<FirstInfo>, later: Option<LaterInfo>)

  /** The entry the listing gives for a process. */
  datatype Entry = Entry(pid: int, name: string, status: string, cpu: real, memory: real, rss: int, createTime: string)

  /** Names containing any of these are system processes and are skipped. */
  const SystemProcesses: seq<string> := [
    "kthreadd", "ksoftirqd", "migration", "watchdog", "systemd",
    "kworker", "rcu_gp", "rcu_par_gp", "kcompactd0",
    "khugepaged", "kintegrityd", "kblockd", "blkcg_punt_bio",
    "tg3", "edac-poller", "devfreq_wq", "kswapd0", "khvcd",
    "scsi_eh_", "scsi_tmf_", "usb-storage", "irq/", "ktimer"]

  /** The first pass keeps running and sleeping processes with a name that
      names no system process. */
  predicate Candidate(p: Proc)
  {
    p.first.Some? && (p.first.value.status == "running" || p.first.value.status == "sleeping") &&
    p.first.value.name.Some? && p.first.value.name.value != "" &&
    !ContainsAny(p.first.value.name.value, SystemProcesses)
  }

  function EntryOf(l: LaterInfo): Entry
  {
    Entry(l.pid,
          if l.name.Some? && l.name.value != "" then l.name.value else "Unknown",
          l.status,
          if l.cpu.Some? then l.cpu.value else 0.0,
          if l.memory.Some? then l.memory.value else 0.0,
          if l.rss.Some? then l.rss.value else 0,
          if l.createTime.Some? then l.createTime.value else "N/A")
  }

  /** No CPU time and at most 0.1 % of memory. */
  predicate Idle(e: Entry)
  {
    e.cpu == 0.0 && e.memory <= 0.1
  }

  /** The entry the second pass keeps for a candidate, if any. */
  function Kept(p: Proc, hideIdle: bool): Option<Entry>
  {
    if p.later.None? then None
    else if hideIdle && Idle(EntryOf(p.later.value)) then None
    else Some(EntryOf(p.later.value))
  }

  function Candidates(procs: seq<Proc>): seq<Proc>
  {
    Filter(procs, Candidate)
  }

  function Collected(candidates: seq<Proc>, hideIdle: bool): seq<Entry>
  {
    FilterMap(candidates, (p: Proc) => Kept(p, hideIdle))
  }

  function CpuKey(e: Entry): SortKey { Num(e.cpu) }
  function MemoryKey(e: Entry): SortKey { Num(e.memory) }
  function NameKey(e: Entry): SortKey { Text(Lower(e.name)) }
  function PidKey(e: Entry): SortKey { Num(e.pid as real) }

  /** The four sort keys, each either way round; any other key keeps the
      order of the second pass. */
  function Sorted(es: seq<Entry>, sortBy: string, desc: bool): seq<Entry>
  {
    if sortBy == "cpu" then SortBy(es, CpuKey, desc)
    else if sortBy == "memory" then SortBy(es, MemoryKey, desc)
    else if sortBy == "name" then SortBy(es, NameKey, desc)
    else if sortBy == "pid" then SortBy(es, PidKey, desc)
    else es
  }

  /** The reply: the listing with its settings, or the error reply when the
      limit is not a whole number. */
  datatype ServicesReply =
    | ServicesReply(services: seq<Entry>, totalCount: nat, totalAvailable: nat, sortBy: string,
                    descOrder: bool, limit: int, hideIdle: bool)
    | ServicesFailure

  /** The query parameters as `serve_services_info` reads them; `limit` is
      `None` when `int` would raise. */
  datatype Settings = Settings(sortBy: string, desc: bool, limit: Option<int>, hideIdle: bool)

  function SettingsOf(q: Query): (s: Settings)
    requires WellFormed(q)
  {
    Settings(Param(q, "sort", "cpu"), IsTrue(Param(q, "desc", "true")),
             ParseInt(Param(q, "limit", "50")), IsTrue(Param(q, "hide_idle", "false")))
  }

  /** The listing `serve_services_info` sends for a query and a process
      table. */
  function ServicesInfoReply(q: Query, procs: seq<Proc>): ServicesReply
    requires WellFormed(q)
  {
    ListingFor(SettingsOf(q), procs)
  }

  /** The listing for settings already read. */
  function ListingFor(st: Settings, procs: seq<Proc>): ServicesReply
  {
    if st.limit.None? then ServicesFailure
    else
      var all := Sorted(Collected(Candidates(procs), st.hideIdle), st.sortBy, st.desc);
      var shown := Limited(all, st.limit.value);
      ServicesReply(shown, |shown|, |all|, st.sortBy, st.desc, st.limit.value, st.hideIdle)
  }

  /** `services[:limit]` for a positive limit, all of them otherwise. */
  function Limited<T>(all: seq<T>, limit: int): (r: seq<T>)
    ensures limit > 0 ==> |r| == Min(limit, |all|) && r == all[..|r|]
    ensures limit <= 0 ==> r == all
    ensures forall x :: x in r ==> x in all
  {
    if limit > 0 then
      var r := Take(all, limit);
      assert forall k :: 0 <= k < |r| ==> r[k] == all[k];
      r
    else all
  }

  /** `serve_services_info`, with its two passes over the process table. */
  method ServeServicesInfo(q: Query, procs: seq<Proc>) returns (reply: ServicesReply)
    requires WellFormed(q)
    ensures reply == ServicesInfoReply(q, procs)
  {
    var sortBy := Param(q, "sort", "cpu");
    var desc := IsTrue(Param(q, "desc", "true"));
    var limit := ParseInt(Param(q, "limit", "50"));
    var hideIdle := IsTrue(Param(q, "hide_idle", "false"));
    assert SettingsOf(q) == Settings(sortBy, desc, limit, hideIdle);
    if limit.None? {
      return ServicesFailure;
    }
    var candidates := FirstPass(procs);
    var services := SecondPass(candidates, hideIdle);
    var all := Sorted(services, sortBy, desc);
    var totalAvailable := |all|;
    if limit.value > 0 {
      all := all[..if limit.value <= |all| then limit.value else |all|];
    }
    reply := ServicesReply(all, |all|, totalAvailable, sortBy, desc, limit.value, hideIdle);
  }

  /** The first pass: the candidates, in table order. */
  method FirstPass(procs: seq<Proc>) returns (candidates: seq<Proc>)
    ensures candidates == Candidates(procs)
  {
    candidates := [];
    for i := 0 to |procs|
      invariant candidates == Filter(procs[..i], Candidate)
    {
      PrefixSnoc(procs, i);
      FilterSnoc(procs[..i], procs[i], Candidate);
      var p := procs[i];
      if p.first.Some? {
        var info := p.first.value;
        if (info.status == "running" || info.status == "sleeping") && info.name.Some? && info.name.value != ""
           && !ContainsAny(info.name.value, SystemProcesses) {
          candidates := candidates + [p];
        }
      }
    }
    assert procs[..|procs|] == procs;
  }

  /** The second pass: an entry for each candidate still there, less the
      idle ones when they are hidden. */
  method SecondPass(candidates: seq<Proc>, hideIdle: bool) returns (services: seq<Entry>)
    ensures services == Collected(candidates, hideIdle)
  {
    services := [];
    for i := 0 to |candidates|
      invariant services == FilterMap(candidates[..i], (p: Proc) => Kept(p, hideIdle))
    {
      FilterMapPrefix(candidates, i, (p: Proc) => Kept(p, hideIdle));
      var p := candidates[i];
      if p.later.Some? {
        var info := EntryOf(p.later.value);
        if hideIdle {
          var isIdle := info.cpu == 0.0 && info.memory <= 0.1;
          if !isIdle {
            services := services + [info];
          }
        } else {
          services := services + [info];
        }
      }
    }
    assert candidates[..|candidates|] == candidates;
  }

  /** A process gives entry `e`: the first pass found it running or
      sleeping under a name that names no system process, the second pass
      could still read it, and the entry is not hidden as idle. */
  predicate Gives(p: Proc, hideIdle: bool, e: Entry)
  {
    Candidate(p) && p.later.Some? && e == EntryOf(p.later.value) && !(hideIdle && Idle(e))
  }

  function Both(p: Proc, hideIdle: bool): Option<Entry>
  {
    if Candidate(p) then Kept(p, hideIdle) else None
  }

  /** The entries are exactly those some process gives. */
  lemma CollectedFacts(procs: seq<Proc>, hideIdle: bool)
    ensures forall e :: e in Collected(Candidates(procs), hideIdle) <==>
      exists i :: 0 <= i < |procs| && Gives(procs[i], hideIdle, e)
  {
    FilterThenFilterMap(procs, Candidate, (p: Proc) => Kept(p, hideIdle), (p: Proc) => Both(p, hideIdle));
    FilterMapMembers(procs, (p: Proc) => Both(p, hideIdle));
    forall e, i | 0 <= i < |procs| ensures Both(procs[i], hideIdle) == Some(e) <==> Gives(procs[i], hideIdle, e) {
    }
  }

  /** Sorting keeps the collected entries. */
  lemma SortedMembersOf(es: seq<Entry>, sortBy: string, desc: bool)
    ensures |Sorted(es, sortBy, desc)| == |es|
    ensures forall e :: e in Sorted(es, sortBy, desc) <==> e in es
  {
    if sortBy == "cpu" { SortedMembers(es, CpuKey, desc); }
    else if sortBy == "memory" { SortedMembers(es, MemoryKey, desc); }
    else if sortBy == "name" { SortedMembers(es, NameKey, desc); }
    else if sortBy == "pid" { SortedMembers(es, PidKey, desc); }
  }

  /** The reply fails exactly when the limit is not a whole number. */
  lemma ServicesFailureIff(q: Query, procs: seq<Proc>)
    requires WellFormed(q)
    ensures ServicesInfoReply(q, procs).ServicesFailure? <==> ParseInt(Param(q, "limit", "50")).None?
  {
  }

  /** A positive limit shows the first `limit` of the sorted entries, and
      any other limit all of them; `total_available` counts them before the
      cut and `total_count` after it. */
  lemma ServicesReplyFacts(st: Settings, procs: seq<Proc>)
    ensures var r := ListingFor(st, procs);
      r.ServicesReply? ==>
        var es := Collected(Candidates(procs), r.hideIdle);
        var all := Sorted(es, r.sortBy, r.descOrder);
        r.totalAvailable == |es| && r.totalCount == |r.services| &&
        (r.limit > 0 ==> |r.services| == Min(r.limit, r.totalAvailable) && r.services == all[..|r.services|]) &&
        (r.limit <= 0 ==> r.services == all)
  {
    if st.limit.Some? {
      SortedMembersOf(Collected(Candidates(procs), st.hideIdle), st.sortBy, st.desc);
    }
  }

  /** Every entry shown is a collected one, so one that some process
      gives (`CollectedFacts`). */
  lemma ShownFromTable(st: Settings, procs: seq<Proc>)
    ensures var r := ListingFor(st, procs);
      r.ServicesReply? ==> forall e :: e in r.services ==> e in Collected(Candidates(procs), r.hideIdle)
  {
    if st.limit.Some? {
      LimitedSortedMembers(Collected(Candidates(procs), st.hideIdle), st.sortBy, st.desc, st.limit.value);
    }
  }

  lemma LimitedSortedMembers(es: seq<Entry>, sortBy: string, desc: bool, limit: int)
    ensures forall e :: e in Limited(Sorted(es, sortBy, desc), limit) ==> e in es
  {
    SortedMembersOf(es, sortBy, desc);
  }

  /** With no parameters the listing is sorted by CPU, busiest first,
      shows at most 50 entries and keeps idle ones. */
  lemma ServicesDefaults()
    ensures SettingsOf(map[]) == Settings("cpu", true, Some(50), false)
  {
    DefaultLimitText();
  }

  /** A flag is set only by the text `true`, in any case. */
  lemma FlagFacts(q: Query, key: string)
    requires WellFormed(q)
    ensures key !in q ==> !IsTrue(Param(q, key, "false")) && IsTrue(Param(q, key, "true"))
    ensures key in q ==> (IsTrue(Param(q, key, "false")) <==> Lower(q[key][0]) == "true")
  {
  }
}
