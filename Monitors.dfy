/**
 * The monitors' shared helpers and their process and service listings:
 * byte and uptime formatting, counting processes by status, and the
 * service list with its filtered, sorted and paginated view. The psutil
 * snapshots are inputs.
 */
module Monitors {
  import opened Common
  import opened Sorting

  // ---------------------------------------------------------------------
  // format_bytes
  // ---------------------------------------------------------------------

  /** The units `format_bytes` tries in turn, then the one it falls back
      to. */
  const ByteUnits: seq<string> := ["B", "KB", "MB", "GB", "TB", "PB"]

  /** The value after `k` divisions by 1024. */
  function Divided(b: real, k: nat): real
  {
    if k == 0 then b else Divided(b, k - 1) / 1024.0
  }

  function Pow1024(k: nat): (p: real)
    ensures p >= 1.0
  {
    if k == 0 then 1.0 else Pow1024(k - 1) * 1024.0
  }

  /** Dividing `k` times by 1024 is dividing once by 1024^k. */
  lemma {:induction false} DividedClosedForm(b: real, k: nat)
    ensures Divided(b, k) == b / Pow1024(k)
  {
    if k > 0 {
      DividedClosedForm(b, k - 1);
      var p := Pow1024(k - 1);
      assert (b / p) / 1024.0 == b / (p * 1024.0);
    }
  }

  /** The first try from `k` on at which the value is below 1024, or 5
      when the five tries all fail. */
  function UnitIndex(b: real, k: nat): (r: nat)
    requires k <= 5
    ensures k <= r <= 5
    ensures r < 5 ==> Divided(b, r) < 1024.0
    ensures forall j :: k <= j < r ==> Divided(b, j) >= 1024.0
    decreases 5 - k
  {
    if k == 5 || Divided(b, k) < 1024.0 then k else UnitIndex(b, k + 1)
  }

  /** `format_bytes` before the one-decimal rendering: the value divided by
      1024 until it is below 1024, and the unit of the last try. */
  method FormatBytes(bytes: real) returns (value: real, unit: string)
    ensures value == Divided(bytes, UnitIndex(bytes, 0))
    ensures unit == ByteUnits[UnitIndex(bytes, 0)]
  {
    value := bytes;
    var k := 0;
    while k < 5
      invariant 0 <= k <= 5 && value == Divided(bytes, k)
      invariant forall j :: 0 <= j < k ==> Divided(bytes, j) >= 1024.0
    {
      if value < 1024.0 {
        unit := ByteUnits[k];
        return;
      }
      value := value / 1024.0;
      k := k + 1;
    }
    unit := ByteUnits[5];
  }

  /** For a non-negative count the unit is the one whose power of 1024 the
      count reaches and the next one it stays below (PB has no upper
      bound); the value shown is below 1024 except in PB, and at least 1
      in every unit but B. */
  lemma BytesUnitRange(b: real)
    requires b >= 0.0
    ensures var k := UnitIndex(b, 0);
      (k > 0 ==> Pow1024(k) <= b && Divided(b, k) >= 1.0) &&
      (k < 5 ==> b < Pow1024(k + 1) && Divided(b, k) < 1024.0) &&
      (k == 0 <==> b < 1024.0)
  {
    var k := UnitIndex(b, 0);
    DividedClosedForm(b, k);
    if k > 0 {
      DividedClosedForm(b, k - 1);
      assert Divided(b, k - 1) >= 1024.0;
      assert b / Pow1024(k - 1) >= 1024.0;
      assert b >= 1024.0 * Pow1024(k - 1);
    }
    if k < 5 {
      assert b / Pow1024(k) < 1024.0;
      assert b < 1024.0 * Pow1024(k);
    }
  }

  // ---------------------------------------------------------------------
  // format_uptime
  // ---------------------------------------------------------------------

  /** Python's `x % m` on floats for a positive modulus. */
  function FMod(x: real, m: real): real
    requires m > 0.0
  {
    x - m * ((x / m).Floor as real)
  }

  datatype Uptime = Uptime(days: int, hours: int, minutes: int)

  /** `format_uptime` at time `now` (in seconds, as `time.time()` gives it)
      before the text rendering. */
  function FormatUptime(now: real, bootTime: real): (u: Uptime)
    ensures 0 <= u.hours < 24 && 0 <= u.minutes < 60
    ensures (u.days as real) * 86400.0 <= now - bootTime < (u.days as real) * 86400.0 + 86400.0
  {
    var s := now - bootTime;
    assert 0.0 <= FMod(s, 86400.0) < 86400.0;
    assert 0.0 <= FMod(s, 3600.0) < 3600.0;
    Uptime((s / 86400.0).Floor, (FMod(s, 86400.0) / 3600.0).Floor, (FMod(s, 3600.0) / 60.0).Floor)
  }

  /** The days, hours and minutes add up to the uptime, less the seconds
      past the last whole minute. */
  lemma UptimeAddsUp(now: real, bootTime: real)
    ensures var u := FormatUptime(now, bootTime);
      var shown := (u.days as real) * 86400.0 + (u.hours as real) * 3600.0 + (u.minutes as real) * 60.0;
      shown <= now - bootTime < shown + 60.0
  {
    var s := now - bootTime;
    var u := FormatUptime(now, bootTime);
    var r := FMod(s, 86400.0);
    assert s == (u.days as real) * 86400.0 + r;
    var q := FMod(s, 3600.0);
    HourOfDay(s, u.days);
    assert r == (u.hours as real) * 3600.0 + q;
    assert (u.minutes as real) * 60.0 <= q < (u.minutes as real) * 60.0 + 60.0;
  }

  /** The seconds into the hour are those into the hour of the seconds
      into the day. */
  lemma HourOfDay(s: real, days: int)
    requires days == (s / 86400.0).Floor
    ensures var r := FMod(s, 86400.0);
      FMod(s, 3600.0) == r - 3600.0 * ((r / 3600.0).Floor as real)
  {
    var r := s - (days as real) * 86400.0;
    assert s / 3600.0 == (24 * days) as real + r / 3600.0;
    assert (s / 3600.0).Floor == 24 * days + (r / 3600.0).Floor;
  }

  // ---------------------------------------------------------------------
  // get_process_info
  // ---------------------------------------------------------------------

  /** The buckets of `get_process_info`; psutil's `idle` counts as
      sleeping. */
  datatype Bucket = Running | Sleeping | Zombie | Stopped | OtherStatus

  function BucketOf(status: string): Bucket
  {
    if status == "running" then Running
    else if status == "sleeping" || status == "idle" then Sleeping
    else if status == "zombie" then Zombie
    else if status == "stopped" then Stopped
    else OtherStatus
  }

  /** How many of the readable statuses fall in bucket `b`; `None` is a
      process whose status could not be read. */
  function InBucket(statuses: seq<Option<string>>, b: Bucket): (n: nat)
    ensures n <= |statuses|
  {
    if statuses == [] then 0
    else (if statuses[0].Some? && BucketOf(statuses[0].value) == b then 1 else 0) + InBucket(statuses[1..], b)
  }

  function Readable(statuses: seq<Option<string>>): (n: nat)
    ensures n <= |statuses|
  {
    if statuses == [] then 0 else (if statuses[0].Some? then 1 else 0) + Readable(statuses[1..])
  }

  datatype ProcessCounts = ProcessCounts(total: nat, running: nat, sleeping: nat, zombie: nat, stopped: nat, other: nat)

  /** `get_process_info`: every process counts in the total, and each one
      whose status could be read in the bucket of its status. */
  method GetProcessInfo(statuses: seq<Option<string>>) returns (c: ProcessCounts)
    ensures c.total == |statuses|
    ensures c.running == InBucket(statuses, Running) && c.sleeping == InBucket(statuses, Sleeping)
    ensures c.zombie == InBucket(statuses, Zombie) && c.stopped == InBucket(statuses, Stopped)
    ensures c.other == InBucket(statuses, OtherStatus)
  {
    c := ProcessCounts(|statuses|, 0, 0, 0, 0, 0);
    var todo := statuses;
    while todo != []
      invariant c.total == |statuses|
      invariant c.running + InBucket(todo, Running) == InBucket(statuses, Running)
      invariant c.sleeping + InBucket(todo, Sleeping) == InBucket(statuses, Sleeping)
      invariant c.zombie + InBucket(todo, Zombie) == InBucket(statuses, Zombie)
      invariant c.stopped + InBucket(todo, Stopped) == InBucket(statuses, Stopped)
      invariant c.other + InBucket(todo, OtherStatus) == InBucket(statuses, OtherStatus)
      decreases |todo|
    {
      match todo[0] {
        case None =>
        case Some(status) =>
          if status == "running" {
            c := c.(running := c.running + 1);
          } else if status == "sleeping" || status == "idle" {
            c := c.(sleeping := c.sleeping + 1);
          } else if status == "zombie" {
            c := c.(zombie := c.zombie + 1);
          } else if status == "stopped" {
            c := c.(stopped := c.stopped + 1);
          } else {
            c := c.(other := c.other + 1);
          }
      }
      todo := todo[1..];
    }
  }

  /** Each readable process is in exactly one bucket, so the buckets add
      up to the readable processes, at most the total. */
  lemma {:induction false} BucketsAddUp(statuses: seq<Option<string>>)
    ensures InBucket(statuses, Running) + InBucket(statuses, Sleeping) + InBucket(statuses, Zombie) +
      InBucket(statuses, Stopped) + InBucket(statuses, OtherStatus) == Readable(statuses)
    ensures Readable(statuses) <= |statuses|
  {
    if statuses != [] {
      BucketsAddUp(statuses[1..]);
    }
  }

  // ---------------------------------------------------------------------
  // get_services_info
  // ---------------------------------------------------------------------

  /** What `process_iter` reports of one process; `None` is a field psutil
      could not read. */
  datatype ProcInfo = ProcInfo(pid: int, name: Option<string>, username: Option<string>, status: string,
                               cpu: Option<real>, memory: Option<real>)

  datatype Service = Service(name: string, pid: int, status: string, cpu: real, memory: real, username: string)

  function OrZero(v: Option<real>): real
  {
    if v.Some? then v.value else 0.0
  }

  /** The service a process gives: none for a nameless process or pid 0
      or 1; a missing figure counts as 0 and a missing user as `unknown`. */
  function ServiceOf(p: ProcInfo): Option<Service>
  {
    if p.name.Some? && p.name.value != "" && p.pid > 1 then
      Some(Service(p.name.value, p.pid, p.status, OrZero(p.cpu), OrZero(p.memory),
                   if p.username.Some? && p.username.value != "" then p.username.value else "unknown"))
    else None
  }

  function CpuKey(s: Service): SortKey { Num(s.cpu) }
  function MemoryKey(s: Service): SortKey { Num(s.memory) }
  function NameKey(s: Service): SortKey { Text(Lower(s.name)) }

  const ServiceLimit: nat := 100

  /** `get_services_info`: the listed processes, busiest first, at most
      100 of them, and how many there were before the cut. */
  method GetServicesInfo(procs: seq<ProcInfo>) returns (services: seq<Service>, total: nat)
    ensures total == |FilterMap(procs, ServiceOf)|
    ensures services == Listed(procs)
  {
    var list: seq<Service> := [];
    for i := 0 to |procs|
      invariant list == FilterMap(procs[..i], ServiceOf)
    {
      FilterMapPrefix(procs, i, ServiceOf);
      var p := procs[i];
      if p.name.Some? && p.name.value != "" && p.pid > 1 {
        list := list + [Service(p.name.value, p.pid, p.status, OrZero(p.cpu), OrZero(p.memory),
                                if p.username.Some? && p.username.value != "" then p.username.value else "unknown")];
      }
    }
    assert procs[..|procs|] == procs;
    services := Take(SortBy(list, CpuKey, true), ServiceLimit);
    total := |list|;
  }

  /** The services listed: at most 100, each from a process with a name
      and a pid above 1, in descending CPU order, and all of them when
      there are no more than 100. */
  lemma ServicesInfoFacts(procs: seq<ProcInfo>)
    ensures |Listed(procs)| <= ServiceLimit
    ensures forall s :: s in Listed(procs) ==> s in FilterMap(procs, ServiceOf) && s.pid > 1 && s.name != ""
    ensures forall j, k :: 0 <= j < k < |Listed(procs)| ==> Listed(procs)[j].cpu >= Listed(procs)[k].cpu
    ensures |FilterMap(procs, ServiceOf)| <= ServiceLimit ==> multiset(Listed(procs)) == multiset(FilterMap(procs, ServiceOf))
  {
    var all := FilterMap(procs, ServiceOf);
    var sorted := SortBy(all, CpuKey, true);
    var r := Listed(procs);
    assert r == sorted[..if ServiceLimit <= |all| then ServiceLimit else |all|];
    SortedPrefix(all, CpuKey, true, ServiceLimit);
    ListedServices(procs);
    CpuOrdered(r);
  }

  /** When more than 100 processes qualify, the busiest are kept: every
      qualifying service left out uses no more CPU than every one listed. */
  lemma ServicesInfoCutoff(procs: seq<ProcInfo>)
    ensures forall s, t :: s in FilterMap(procs, ServiceOf) && s !in Listed(procs) && t in Listed(procs) ==>
      s.cpu <= t.cpu
  {
    var all := FilterMap(procs, ServiceOf);
    assert Listed(procs) == SortBy(all, CpuKey, true)[..if ServiceLimit <= |all| then ServiceLimit else |all|];
    SortedCutoff(all, CpuKey, true, ServiceLimit);
    forall s, t | s in all && s !in Listed(procs) && t in Listed(procs)
      ensures s.cpu <= t.cpu
    {
      assert !Before(CpuKey, true, s, t);
    }
  }

  /** The services `get_services_info` lists for a snapshot. */
  function Listed(procs: seq<ProcInfo>): seq<Service>
  {
    Take(SortBy(FilterMap(procs, ServiceOf), CpuKey, true), ServiceLimit)
  }

  /** Every listed service comes from a process with a name and a pid
      above 1. */
  lemma ListedServices(procs: seq<ProcInfo>)
    ensures forall s :: s in FilterMap(procs, ServiceOf) ==> s.pid > 1 && s.name != ""
  {
    FilterMapMembers(procs, ServiceOf);
    forall s | s in FilterMap(procs, ServiceOf) ensures s.pid > 1 && s.name != "" {
      var i :| 0 <= i < |procs| && ServiceOf(procs[i]) == Some(s);
    }
  }

  /** Sorted by descending CPU, in terms of the figures. */
  lemma CpuOrdered(r: seq<Service>)
    requires forall j, k :: 0 <= j < k < |r| ==> !Before(CpuKey, true, r[k], r[j])
    ensures forall j, k :: 0 <= j < k < |r| ==> r[j].cpu >= r[k].cpu
  {
    forall j, k | 0 <= j < k < |r| ensures r[j].cpu >= r[k].cpu {
      assert !Before(CpuKey, true, r[k], r[j]);
    }
  }

  // ---------------------------------------------------------------------
  // get_paginated_services
  // ---------------------------------------------------------------------

  /** What `get_services_info` returned: the list and its total, or the
      error dictionary. */
  datatype ServicesInfo = ServicesInfo(services: seq<Service>, total: nat) | ServicesError(error: string)

  datatype ServicesPage = ServicesPage(services: seq<Service>, total: nat, page: int, pageSize: int)
                        | PageError(error: string)

  predicate Matches(s: Service, search: Option<string>, status: Option<string>)
  {
    (search.None? || search.value == "" || Contains(Lower(s.name), Lower(search.value))) &&
    (status.None? || status.value == "" || Lower(s.status) == Lower(status.value))
  }

  /** The search filter (a case-insensitive substring of the name), then
      the status filter (a case-insensitive equality); an empty or missing
      argument filters nothing. */
  function Filtered(services: seq<Service>, search: Option<string>, status: Option<string>): seq<Service>
  {
    var bySearch := if search.Some? && search.value != "" then
      Filter(services, (s: Service) => Contains(Lower(s.name), Lower(search.value))) else services;
    if status.Some? && status.value != "" then
      Filter(bySearch, (s: Service) => Lower(s.status) == Lower(status.value)) else bySearch
  }

  /** CPU and memory descending, the lower-cased name ascending, any other
      key the order as listed. */
  function SortedServices(services: seq<Service>, sortBy: string): seq<Service>
  {
    if sortBy == "cpu" then SortBy(services, CpuKey, true)
    else if sortBy == "memory" then SortBy(services, MemoryKey, true)
    else if sortBy == "name" then SortBy(services, NameKey, false)
    else services
  }

  /** Where page `page` of `pageSize` entries starts. */
  function PageStart(page: int, pageSize: int): (start: int)
    ensures page >= 1 && pageSize >= 0 ==> start >= 0
  {
    NonNegativeProduct(if page >= 1 then page - 1 else 0, if pageSize >= 0 then pageSize else 0);
    (page - 1) * pageSize
  }

  /** `get_paginated_services` over a result of `get_services_info`. */
  function PaginatedServices(info: ServicesInfo, page: int, pageSize: int, sortBy: string,
                             search: Option<string>, status: Option<string>): ServicesPage
  {
    match info
    case ServicesError(e) => PageError(e)
    case ServicesInfo(all, _) =>
      var sorted := SortedServices(Filtered(all, search, status), sortBy);
      var start := PageStart(page, pageSize);
      ServicesPage(PySlice(sorted, start, start + pageSize), |sorted|, page, pageSize)
  }

  /** The filters keep exactly the services that match both, in order. */
  lemma FilteredMembers(services: seq<Service>, search: Option<string>, status: Option<string>)
    ensures forall s :: s in Filtered(services, search, status) <==> s in services && Matches(s, search, status)
  {
    var bySearch := if search.Some? && search.value != "" then
      Filter(services, (s: Service) => Contains(Lower(s.name), Lower(search.value))) else services;
    if search.Some? && search.value != "" {
      FilterMembers(services, (s: Service) => Contains(Lower(s.name), Lower(search.value)));
    }
    if status.Some? && status.value != "" {
      FilterMembers(bySearch, (s: Service) => Lower(s.status) == Lower(status.value));
    }
  }

  /** Sorting keeps the services that were filtered. */
  lemma SortedServicesMembers(services: seq<Service>, sortBy: string)
    ensures forall s :: s in SortedServices(services, sortBy) <==> s in services
    ensures |SortedServices(services, sortBy)| == |services|
  {
    if sortBy == "cpu" { SortedMembers(services, CpuKey, true); }
    else if sortBy == "memory" { SortedMembers(services, MemoryKey, true); }
    else if sortBy == "name" { SortedMembers(services, NameKey, false); }
  }

  /** An error from the listing comes back as it was. Otherwise `total` is
      the number of matching services, and every service on the page
      matches the filters and comes from the listing. */
  lemma PaginatedFacts(info: ServicesInfo, page: int, pageSize: int, sortBy: string,
                       search: Option<string>, status: Option<string>)
    ensures info.ServicesError? ==> PaginatedServices(info, page, pageSize, sortBy, search, status) == PageError(info.error)
    ensures info.ServicesInfo? ==>
      var r := PaginatedServices(info, page, pageSize, sortBy, search, status);
      r.ServicesPage? && r.total == |Filtered(info.services, search, status)| && r.page == page && r.pageSize == pageSize &&
      (forall s :: s in r.services ==> s in info.services && Matches(s, search, status))
  {
    if info.ServicesInfo? {
      var matching := Filtered(info.services, search, status);
      var sorted := SortedServices(matching, sortBy);
      FilteredMembers(info.services, search, status);
      SortedServicesMembers(matching, sortBy);
      SliceMembers(sorted, PageStart(page, pageSize), PageStart(page, pageSize) + pageSize);
    }
  }

  lemma NonNegativeProduct(a: int, b: int)
    requires a >= 0 && b >= 0
    ensures a * b >= 0
  {
  }

  lemma SliceMembers<T>(s: seq<T>, start: int, stop: int)
    ensures forall x :: x in PySlice(s, start, stop) ==> x in s
  {
    var r := PySlice(s, start, stop);
    forall x | x in r ensures x in s {
      var k :| 0 <= k < |r| && r[k] == x;
      assert x == s[SliceBound(start, |s|) + k];
    }
  }

  /** For a page from 1 on and a size from 0 on, the page is the slice
      [(page-1)*size, page*size) of the sorted matches, cut at their end,
      so at most `size` long. */
  lemma PageWindow(info: ServicesInfo, page: int, pageSize: int, sortBy: string,
                   search: Option<string>, status: Option<string>)
    requires info.ServicesInfo? && page >= 1 && pageSize >= 0
    ensures var r := PaginatedServices(info, page, pageSize, sortBy, search, status);
      var sorted := SortedServices(Filtered(info.services, search, status), sortBy);
      var start := PageStart(page, pageSize);
      |r.services| <= pageSize &&
      (start + pageSize <= |sorted| ==> r.services == sorted[start..start + pageSize]) &&
      (start <= |sorted| < start + pageSize ==> r.services == sorted[start..]) &&
      (start > |sorted| ==> r.services == [])
  {
    var sorted := SortedServices(Filtered(info.services, search, status), sortBy);
    PySliceOfNonNegative(sorted, PageStart(page, pageSize), pageSize);
  }

  /** Sorting by CPU lists the page busiest first. */
  lemma PageSortedByCpu(info: ServicesInfo, page: int, pageSize: int, search: Option<string>, status: Option<string>)
    requires info.ServicesInfo?
    ensures var r := PaginatedServices(info, page, pageSize, "cpu", search, status);
      forall j, k :: 0 <= j < k < |r.services| ==> r.services[j].cpu >= r.services[k].cpu
  {
    var sorted := SortBy(Filtered(info.services, search, status), CpuKey, true);
    var start := PageStart(page, pageSize);
    var r := PySlice(sorted, start, start + pageSize);
    var a := SliceBound(start, |sorted|);
    forall j, k | 0 <= j < k < |r| ensures r[j].cpu >= r[k].cpu {
      assert r[j] == sorted[a + j] && r[k] == sorted[a + k];
      assert !Before(CpuKey, true, sorted[a + k], sorted[a + j]);
    }
  }
}
