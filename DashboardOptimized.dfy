/**
 * The optimized dashboard server: routing with a paginated listing and
 * static files, gzip compression of large replies, the paginated services
 * listing, and static-file serving. The process monitor's listing, the
 * file system, `mimetypes` and the gzip encoder are inputs.
 */
module DashboardOptimized {
  import opened Common
  import opened Sorting
  import opened HttpQuery
  import DashboardServer

  type Route = DashboardServer.Route

  // ---------------------------------------------------------------------
  // Routing
  // ---------------------------------------------------------------------

  /** The fixed paths of the optimized server, in the order `do_GET` tests
      them. */
  const OptimizedPaths: seq<string> :=
    ["/", "/api/system", "/api/processes", "/api/network", "/api/logs", "/api/filesystem",
     "/api/services", "/api/services/paginated"]

  const StaticPrefix: string := "/static/"

  /** The handler `do_GET` calls for a request path. */
  function RouteOf(path: string): Route
  {
    if path == "/" then DashboardServer.Dashboard
    else if path == "/api/system" then DashboardServer.SystemInfo
    else if path == "/api/processes" then DashboardServer.ProcessInfo
    else if path == "/api/network" then DashboardServer.NetworkInfo
    else if path == "/api/logs" then DashboardServer.LogInfo
    else if path == "/api/filesystem" then DashboardServer.FilesystemInfo
    else if path == "/api/services" then DashboardServer.ServicesInfo
    else if path == "/api/services/paginated" then DashboardServer.PaginatedServices
    else if StartsWith(path, StaticPrefix) then DashboardServer.StaticFile(path)
    else DashboardServer.NotFound
  }

  /** Every path the basic server answers goes to the same handler here; a
      path under `/static/` that is no fixed path goes to the static
      handler; anything else is not found. */
  lemma RouteOfFacts(path: string)
    ensures DashboardServer.RouteOf(path) != DashboardServer.NotFound ==> RouteOf(path) == DashboardServer.RouteOf(path)
    ensures RouteOf(path).StaticFile? <==> path !in OptimizedPaths && StartsWith(path, StaticPrefix)
    ensures RouteOf(path).StaticFile? ==> RouteOf(path).path == path
    ensures RouteOf(path) == DashboardServer.NotFound <==> path !in OptimizedPaths && !StartsWith(path, StaticPrefix)
  {
  }

  /** `'gzip' in self.headers.get('Accept-Encoding', '')` */
  predicate SupportsGzip(acceptEncoding: Option<string>)
  {
    Contains(if acceptEncoding.Some? then acceptEncoding.value else "", "gzip")
  }

  // ---------------------------------------------------------------------
  // UTF-8 and compress_response
  // ---------------------------------------------------------------------

  newtype byte = x: int | 0 <= x < 256

  /** The UTF-8 encoding of one character: six bits per continuation byte,
      the rest in the lead byte. */
  function CharBytes(c: char): (r: seq<byte>)
    ensures 1 <= |r| <= 4
    ensures |r| == 1 <==> (c as int) < 0x80
  {
    var n := c as int;
    var q1 := n / 64;
    var q2 := q1 / 64;
    var q3 := q2 / 64;
    if n < 0x80 then [n as byte]
    else if n < 0x800 then [(0xC0 + q1) as byte, (0x80 + n % 64) as byte]
    else if n < 0x10000 then [(0xE0 + q2) as byte, (0x80 + q1 % 64) as byte, (0x80 + n % 64) as byte]
    else [(0xF0 + q3) as byte, (0x80 + q2 % 64) as byte, (0x80 + q1 % 64) as byte, (0x80 + n % 64) as byte]
  }

  /** How many bytes a lead byte announces, 0 for a continuation byte. */
  function LeadLength(b: byte): nat
  {
    if b < 0x80 then 1 else if b < 0xC0 then 0 else if b < 0xE0 then 2 else if b < 0xF0 then 3 else 4
  }

  /** The code point a character's bytes carry. */
  function CodePoint(bs: seq<byte>): int
    requires 1 <= |bs| <= 4
  {
    if |bs| == 1 then bs[0] as int
    else if |bs| == 2 then (bs[0] as int - 0xC0) * 64 + (bs[1] as int - 0x80)
    else if |bs| == 3 then ((bs[0] as int - 0xE0) * 64 + (bs[1] as int - 0x80)) * 64 + (bs[2] as int - 0x80)
    else (((bs[0] as int - 0xF0) * 64 + (bs[1] as int - 0x80)) * 64 + (bs[2] as int - 0x80)) * 64 + (bs[3] as int - 0x80)
  }

  /** A character's bytes announce their own length in the lead byte, the
      rest are continuation bytes, and they carry the character back. */
  lemma CharBytesDecode(c: char)
    ensures var r := CharBytes(c);
      LeadLength(r[0]) == |r| && (forall k :: 1 <= k < |r| ==> LeadLength(r[k]) == 0) &&
      CodePoint(r) == c as int
  {
    var n := c as int;
    var q1 := n / 64;
    var q2 := q1 / 64;
    var q3 := q2 / 64;
    assert n == q1 * 64 + n % 64;
    assert q1 == q2 * 64 + q1 % 64;
    assert q2 == q3 * 64 + q2 % 64;
    var r := CharBytes(c);
    if n < 0x80 {
    } else if n < 0x800 {
      assert r[0] as int - 0xC0 == q1 && r[1] as int - 0x80 == n % 64;
    } else if n < 0x10000 {
      assert r[0] as int - 0xE0 == q2 && r[1] as int - 0x80 == q1 % 64 && r[2] as int - 0x80 == n % 64;
    } else {
      assert r[0] as int - 0xF0 == q3 && r[1] as int - 0x80 == q2 % 64;
      assert r[2] as int - 0x80 == q1 % 64 && r[3] as int - 0x80 == n % 64;
    }
  }

  /** `s.encode('utf-8')` */
  function Utf8(s: string): (r: seq<byte>)
    ensures |s| <= |r| <= 4 * |s|
  {
    if s == [] then [] else CharBytes(s[0]) + Utf8(s[1..])
  }

  /** ASCII text encodes to one byte per character, the character's code. */
  lemma {:induction false} Utf8Ascii(s: string)
    requires forall i :: 0 <= i < |s| ==> (s[i] as int) < 0x80
    ensures |Utf8(s)| == |s|
    ensures forall i :: 0 <= i < |s| ==> Utf8(s)[i] as int == s[i] as int
  {
    if s != [] {
      Utf8Ascii(s[1..]);
      assert forall i :: 1 <= i < |s| ==> s[1..][i - 1] == s[i];
    }
  }

  /** What a handler passes on: text, or bytes read from a file. */
  datatype Payload = TextData(text: string) | ByteData(bytes: seq<byte>)

  /** `len(data)`: characters for text, bytes for bytes. */
  function Length(p: Payload): nat
  {
    match p
    case TextData(t) => |t|
    case ByteData(b) => |b|
  }

  function Encoded(p: Payload): seq<byte>
  {
    match p
    case TextData(t) => Utf8(t)
    case ByteData(b) => b
  }

  /** Replies of more than 1024 are compressed when the client accepts
      gzip. */
  const CompressThreshold: nat := 1024

  /** What `compress_response` gives: the body and whether it is gzip. */
  datatype Compressed = Compressed(body: seq<byte>, gzipped: bool)

  /** `compress_response` */
  function CompressResponse(data: Payload, supportsGzip: bool, gzip: seq<byte> -> seq<byte>): Compressed
  {
    if supportsGzip && Length(data) > CompressThreshold then Compressed(gzip(Encoded(data)), true)
    else Compressed(Encoded(data), false)
  }

  /** The reply is compressed exactly when gzip is accepted and the data is
      longer than 1024 (characters for text, not bytes); otherwise it is the
      data's own bytes. */
  lemma CompressFacts(data: Payload, supportsGzip: bool, gzip: seq<byte> -> seq<byte>)
    ensures var c := CompressResponse(data, supportsGzip, gzip);
      (c.gzipped <==> supportsGzip && Length(data) > CompressThreshold) &&
      (c.gzipped ==> c.body == gzip(Encoded(data))) &&
      (!c.gzipped ==> c.body == Encoded(data))
  {
  }

  /** A reply header list, as `send_header` calls send them. */
  type Headers = seq<(string, string)>

  predicate HasHeader(hs: Headers, name: string)
  {
    exists k :: 0 <= k < |hs| && hs[k].0 == name
  }

  /** A reply: status, headers and body, or `send_error`. */
  datatype Response = Response(status: int, headers: Headers, body: seq<byte>) | ErrorPage(status: int, message: string)

  function EncodingHeader(compressed: bool): Headers
  {
    if compressed then [("Content-Encoding", "gzip")] else []
  }

  /** The reply `send_json_response`, `send_html_response` and the static
      handler build: compress the data if asked and worth it, and declare
      what was sent. */
  function Send(contentType: string, cacheControl: string, data: Payload, supportsGzip: bool,
                gzip: seq<byte> -> seq<byte>): Response
  {
    var c := CompressResponse(data, supportsGzip, gzip);
    Response(200, [("Content-Type", contentType), ("Cache-Control", cacheControl)] + EncodingHeader(c.gzipped) +
                  [("Content-Length", NatText(|c.body|))], c.body)
  }

  /** The JSON text of a reply (what `json.dumps` gives) sent as such. */
  function SendJson(json: string, supportsGzip: bool, gzip: seq<byte> -> seq<byte>): Response
  {
    Send("application/json; charset=utf-8", "no-cache", TextData(json), supportsGzip, gzip)
  }

  function SendHtml(html: string, supportsGzip: bool, gzip: seq<byte> -> seq<byte>): Response
  {
    Send("text/html; charset=utf-8", "public, max-age=300", TextData(html), supportsGzip, gzip)
  }

  /** A reply says gzip exactly when it is compressed, which is when gzip
      is accepted and the data is longer than 1024; an uncompressed body is
      the data's own bytes (text in UTF-8). */
  lemma SendEncoding(contentType: string, cacheControl: string, data: Payload, supportsGzip: bool,
                     gzip: seq<byte> -> seq<byte>)
    ensures var r := Send(contentType, cacheControl, data, supportsGzip, gzip);
      r.status == 200 &&
      (HasHeader(r.headers, "Content-Encoding") <==> supportsGzip && Length(data) > CompressThreshold) &&
      (!(supportsGzip && Length(data) > CompressThreshold) ==> r.body == Encoded(data))
  {
    var c := CompressResponse(data, supportsGzip, gzip);
    var hs := [("Content-Type", contentType), ("Cache-Control", cacheControl)] + EncodingHeader(c.gzipped) +
              [("Content-Length", NatText(|c.body|))];
    assert Send(contentType, cacheControl, data, supportsGzip, gzip).headers == hs;
    if c.gzipped {
      assert hs[2].0 == "Content-Encoding";
    } else {
      assert hs == [("Content-Type", contentType), ("Cache-Control", cacheControl), ("Content-Length", NatText(|c.body|))];
    }
  }

  /** The last header of a reply is its Content-Length, which reads back
      as the number of bytes sent. */
  lemma SendLength(contentType: string, cacheControl: string, data: Payload, supportsGzip: bool,
                   gzip: seq<byte> -> seq<byte>)
    ensures var r := Send(contentType, cacheControl, data, supportsGzip, gzip);
      r.headers[|r.headers| - 1].0 == "Content-Length" &&
      ParseInt(r.headers[|r.headers| - 1].1) == Some(|r.body|)
  {
    var r := Send(contentType, cacheControl, data, supportsGzip, gzip);
    assert r.headers[|r.headers| - 1] == ("Content-Length", NatText(|r.body|));
    ParseIntText(|r.body|);
  }

  // ---------------------------------------------------------------------
  // serve_paginated_services
  // ---------------------------------------------------------------------

  /** A process as the process monitor lists it; `None` is a key the
      dictionary does not have (`.get` then gives its default). */
  datatype ProcRecord = ProcRecord(pid: Option<int>, name: Option<string>, cpu: Option<real>, memory: Option<real>)

  function CpuOf(p: ProcRecord): real { if p.cpu.Some? then p.cpu.value else 0.0 }
  function MemoryOf(p: ProcRecord): real { if p.memory.Some? then p.memory.value else 0.0 }

  function CpuKey(p: ProcRecord): SortKey { Num(CpuOf(p)) }
  function MemoryKey(p: ProcRecord): SortKey { Num(MemoryOf(p)) }
  function NameKey(p: ProcRecord): SortKey { Text(Lower(if p.name.Some? then p.name.value else "")) }
  function PidKey(p: ProcRecord): SortKey { Num(if p.pid.Some? then p.pid.value as real else 0.0) }

  /** The query as `serve_paginated_services` reads it; a number is `None`
      when `int` would raise. */
  datatype PageSettings = PageSettings(sortBy: string, desc: bool, hideIdle: bool, page: Option<int>, pageSize: Option<int>)

  function PageSettingsOf(q: Query): PageSettings
    requires WellFormed(q)
  {
    PageSettings(Param(q, "sort", "cpu"), IsTrue(Param(q, "desc", "true")), IsTrue(Param(q, "hide_idle", "false")),
                 ParseInt(Param(q, "page", "1")), ParseInt(Param(q, "page_size", "50")))
  }

  /** Some CPU time, or more than 0.1 % of memory. */
  predicate Busy(p: ProcRecord)
  {
    CpuOf(p) > 0.0 || MemoryOf(p) > 0.1
  }

  function Visible(procs: seq<ProcRecord>, hideIdle: bool): seq<ProcRecord>
  {
    if hideIdle then Filter(procs, Busy) else procs
  }

  function SortedRecords(procs: seq<ProcRecord>, sortBy: string, desc: bool): seq<ProcRecord>
  {
    if sortBy == "cpu" then SortBy(procs, CpuKey, desc)
    else if sortBy == "memory" then SortBy(procs, MemoryKey, desc)
    else if sortBy == "name" then SortBy(procs, NameKey, desc)
    else if sortBy == "pid" then SortBy(procs, PidKey, desc)
    else procs
  }

  /** The reply: one page of the listing, or the error reply. */
  datatype PagedReply =
    | Paged(services: seq<ProcRecord>, totalCount: nat, totalPages: int, currentPage: int, pageSize: int)
    | PagedError

  /** `max(1, (total_count + page_size - 1) // page_size)` */
  function TotalPages(total: nat, pageSize: int): (n: int)
    requires pageSize != 0
    ensures n >= 1
  {
    Max(1, FloorDiv(total + pageSize - 1, pageSize))
  }

  /** The page for settings already read; `procs` is `None` when the
      process monitor raised. A page size of 0 raises in the division. */
  function PaginatedFor(st: PageSettings, procs: Option<seq<ProcRecord>>): PagedReply
  {
    if procs.None? || st.page.None? || st.pageSize.None? || st.pageSize.value == 0 then PagedError
    else
      var listed := SortedRecords(Visible(procs.value, st.hideIdle), st.sortBy, st.desc);
      var page := st.page.value;
      var size := st.pageSize.value;
      var start := DashboardStart(page, size);
      Paged(PySlice(listed, start, start + size), |listed|, TotalPages(|listed|, size), page, size)
  }

  /** `(page - 1) * page_size` */
  function DashboardStart(page: int, size: int): (start: int)
    ensures page >= 1 && size >= 0 ==> start >= 0
  {
    ProductBound(page - 1, size);
    (page - 1) * size
  }

  lemma ProductBound(a: int, b: int)
    ensures a >= 0 && b >= 0 ==> a * b >= 0
  {
  }

  /** `serve_paginated_services` for a query. */
  function PaginatedReply(q: Query, procs: Option<seq<ProcRecord>>): PagedReply
    requires WellFormed(q)
  {
    PaginatedFor(PageSettingsOf(q), procs)
  }

  /** The reply is the error reply exactly when the listing failed, a page
      number is not a whole number, or the page size is 0. */
  lemma PagedErrorIff(st: PageSettings, procs: Option<seq<ProcRecord>>)
    ensures PaginatedFor(st, procs).PagedError? <==>
      procs.None? || st.page.None? || st.pageSize.None? || st.pageSize.value == 0
  {
  }

  /** Hiding idle processes keeps exactly the busy ones, in order. */
  lemma VisibleFacts(procs: seq<ProcRecord>, hideIdle: bool)
    ensures !hideIdle ==> Visible(procs, hideIdle) == procs
    ensures hideIdle ==> forall p :: p in Visible(procs, hideIdle) <==> p in procs && Busy(p)
  {
    FilterMembers(procs, Busy);
  }

  /** Sorting keeps the listing and orders it by the key asked for. */
  lemma SortedRecordsFacts(procs: seq<ProcRecord>, sortBy: string, desc: bool)
    ensures |SortedRecords(procs, sortBy, desc)| == |procs|
    ensures forall p :: p in SortedRecords(procs, sortBy, desc) <==> p in procs
    ensures sortBy == "cpu" ==> SortedBy(SortedRecords(procs, sortBy, desc), CpuKey, desc)
    ensures sortBy == "memory" ==> SortedBy(SortedRecords(procs, sortBy, desc), MemoryKey, desc)
    ensures sortBy == "name" ==> SortedBy(SortedRecords(procs, sortBy, desc), NameKey, desc)
    ensures sortBy == "pid" ==> SortedBy(SortedRecords(procs, sortBy, desc), PidKey, desc)
    ensures sortBy !in ["cpu", "memory", "name", "pid"] ==> SortedRecords(procs, sortBy, desc) == procs
  {
    if sortBy == "cpu" { SortedMembers(procs, CpuKey, desc); }
    else if sortBy == "memory" { SortedMembers(procs, MemoryKey, desc); }
    else if sortBy == "name" { SortedMembers(procs, NameKey, desc); }
    else if sortBy == "pid" { SortedMembers(procs, PidKey, desc); }
  }

  /** For a positive page size there are enough pages for every process
      and no empty one past the first; the total counts the processes
      before the page is cut. */
  lemma TotalPagesFacts(total: nat, pageSize: int)
    requires pageSize > 0
    ensures TotalPages(total, pageSize) == Max(1, CeilDiv(total, pageSize))
    ensures total <= TotalPages(total, pageSize) * pageSize
    ensures total > 0 ==> (TotalPages(total, pageSize) - 1) * pageSize < total
  {
    var n := CeilDiv(total, pageSize);
    if n < 1 {
      assert pageSize * (n - 1) < total <= pageSize * n;
      assert n == 0;
    }
  }

  /** For a page from 1 on and a positive size the page is the slice
      [(page-1)*size, page*size) of the sorted listing, cut at its end. */
  lemma PageWindow(st: PageSettings, procs: Option<seq<ProcRecord>>)
    requires procs.Some? && st.page.Some? && st.pageSize.Some? && st.page.value >= 1 && st.pageSize.value > 0
    ensures var r := PaginatedFor(st, procs);
      var listed := SortedRecords(Visible(procs.value, st.hideIdle), st.sortBy, st.desc);
      var start := (st.page.value - 1) * st.pageSize.value;
      r.Paged? && r.totalCount == |listed| && r.currentPage == st.page.value && r.pageSize == st.pageSize.value &&
      |r.services| <= st.pageSize.value &&
      (start + st.pageSize.value <= |listed| ==> r.services == listed[start..start + st.pageSize.value]) &&
      (start <= |listed| < start + st.pageSize.value ==> r.services == listed[start..]) &&
      (start > |listed| ==> r.services == [])
  {
    var listed := SortedRecords(Visible(procs.value, st.hideIdle), st.sortBy, st.desc);
    PySliceOfNonNegative(listed, DashboardStart(st.page.value, st.pageSize.value), st.pageSize.value);
  }

  /** With no parameters: sorted by CPU, busiest first, idle processes
      kept, page 1 of 50. */
  lemma PageDefaults()
    ensures PageSettingsOf(map[]) == PageSettings("cpu", true, false, Some(1), Some(50))
  {
    DefaultPageText();
    DefaultLimitText();
  }

  // ---------------------------------------------------------------------
  // serve_static_file
  // ---------------------------------------------------------------------

  const StaticDir: string := "/home/bao/mcp_use/web_dashboard/static"

  /** `os.path.join(a, b)` for two parts. */
  function PathJoin(a: string, b: string): string
  {
    if StartsWith(b, "/") then b
    else if a == [] || a[|a| - 1] == '/' then a + b
    else a + "/" + b
  }

  /** The file the handler opens, as written: the request path less its
      first eight characters, joined to the static directory. */
  function StaticPathAsWritten(path: string): string
  {
    PathJoin(StaticDir, PySlice(path, 8, |path|))
  }

  /** A request path with a doubled slash after the prefix names a file
      outside the static directory. */
  lemma StaticPathEscapes()
    ensures StaticPathAsWritten("/static//etc/passwd") == "/etc/passwd"
    ensures !StartsWith(StaticPathAsWritten("/static//etc/passwd"), StaticDir)
  {
    var r := PySlice("/static//etc/passwd", 8, 19);
    assert r == "/etc/passwd";
    assert StartsWith(r, "/");
  }

  /** The file to serve for a request path, with the remainder refused
      when it is absolute or climbs with a `..` segment. */
  function StaticPath(path: string): Option<string>
  {
    var rest := PySlice(path, 8, |path|);
    if StartsWith(rest, "/") || ".." in Split(rest, '/') then None
    else Some(StaticDir + "/" + rest)
  }

  /** A refused path is exactly an absolute or climbing remainder; an
      accepted one names the static directory's segments followed by the
      remainder's, none of them `..`, so it stays inside the directory. */
  lemma StaticPathInside(path: string)
    ensures var rest := PySlice(path, 8, |path|);
      StaticPath(path).None? <==> StartsWith(rest, "/") || ".." in Split(rest, '/')
    ensures var rest := PySlice(path, 8, |path|);
      StaticPath(path).Some? ==>
        StartsWith(StaticPath(path).value, StaticDir + "/") &&
        Split(StaticPath(path).value, '/') == Split(StaticDir, '/') + Split(rest, '/') &&
        ".." !in Split(StaticPath(path).value, '/')
  {
    var rest := PySlice(path, 8, |path|);
    if StaticPath(path).Some? {
      var f := StaticDir + "/" + rest;
      assert f[..|StaticDir + "/"|] == StaticDir + "/";
      SplitAround(StaticDir, rest, '/');
      StaticDirSegments();
    }
  }

  /** Splitting around one separator splits each side. */
  lemma {:induction false} SplitAround(a: string, b: string, sep: char)
    ensures Split(a + [sep] + b, sep) == Split(a, sep) + Split(b, sep)
  {
    if a == [] {
      assert a + [sep] + b == [sep] + b;
      assert ([sep] + b)[1..] == b;
    } else {
      assert (a + [sep] + b)[0] == a[0];
      assert (a + [sep] + b)[1..] == a[1..] + [sep] + b;
      SplitAround(a[1..], b, sep);
    }
  }

  /** Every character of a piece is a character of the text split. */
  lemma {:induction false} SplitPiecesFrom(s: string, sep: char)
    ensures forall k, c :: 0 <= k < |Split(s, sep)| && c in Split(s, sep)[k] ==> c in s
  {
    if s != [] {
      SplitPiecesFrom(s[1..], sep);
      assert s == [s[0]] + s[1..];
      var rest := Split(s[1..], sep);
      forall k, c | 0 <= k < |Split(s, sep)| && c in Split(s, sep)[k] ensures c in s {
        if s[0] == sep {
          if k > 0 {
            assert Split(s, sep)[k] == rest[k - 1];
          }
        } else if k == 0 {
          assert Split(s, sep)[0] == [s[0]] + rest[0];
        } else {
          assert Split(s, sep)[k] == rest[k];
        }
      }
    }
  }

  /** Text without a dot has no `..` piece. */
  lemma DotlessPieces(s: string, sep: char)
    requires '.' !in s
    ensures ".." !in Split(s, sep)
  {
    SplitPiecesFrom(s, sep);
    var pieces := Split(s, sep);
    forall k | 0 <= k < |pieces| ensures pieces[k] != ".." {
      assert '.' !in pieces[k];
      assert ".."[0] == '.';
    }
  }

  /** No segment of the static directory is `..`: it has no dot at all. */
  lemma StaticDirSegments()
    ensures ".." !in Split(StaticDir, '/')
  {
    assert '.' !in StaticDir;
    DotlessPieces(StaticDir, '/');
  }

  /** What the file system holds at a path. */
  datatype FsEntry = File(content: seq<byte>) | Directory

  /** `mimetypes.guess_type(file_path)[0] or 'application/octet-stream'` */
  function ContentType(guess: string -> Option<string>, file: string): string
  {
    var g := guess(file);
    if g.Some? && g.value != "" then g.value else "application/octet-stream"
  }

  /** `serve_static_file` over a file-system snapshot, with the path check
      in place. Opening a directory raises, which the handler reports as
      500. */
  function ServeStaticFile(path: string, supportsGzip: bool, fs: map<string, FsEntry>,
                           guess: string -> Option<string>, gzip: seq<byte> -> seq<byte>): Response
  {
    match StaticPath(path)
    case None => ErrorPage(404, "File not found")
    case Some(file) =>
      if file !in fs then ErrorPage(404, "File not found")
      else
        var gz := file + ".gz";
        if supportsGzip && gz in fs then
          match fs[gz]
          case Directory => ErrorPage(500, "Internal server error")
          case File(content) =>
            Response(200, [("Content-Type", ContentType(guess, file)), ("Content-Encoding", "gzip"),
                           ("Cache-Control", "public, max-age=3600"), ("Content-Length", NatText(|content|))], content)
        else
          match fs[file]
          case Directory => ErrorPage(500, "Internal server error")
          case File(content) =>
            Send(ContentType(guess, file), "public, max-age=3600", ByteData(content), supportsGzip, gzip)
  }

  /** Not found means a refused path or a missing file. A served file is the
      stored `.gz` twin when gzip is accepted and there is one, marked gzip;
      otherwise the file itself, compressed exactly when gzip is accepted
      and it is longer than 1024 bytes. */
  lemma ServeStaticFacts(path: string, supportsGzip: bool, fs: map<string, FsEntry>,
                         guess: string -> Option<string>, gzip: seq<byte> -> seq<byte>)
    ensures var r := ServeStaticFile(path, supportsGzip, fs, guess, gzip);
      (r == ErrorPage(404, "File not found") <==> StaticPath(path).None? || StaticPath(path).value !in fs)
    ensures var r := ServeStaticFile(path, supportsGzip, fs, guess, gzip);
      r.Response? ==>
        var file := StaticPath(path).value;
        var gz := file + ".gz";
        file in fs && r.status == 200 &&
        r.headers[|r.headers| - 1] == ("Content-Length", NatText(|r.body|)) &&
        (supportsGzip && gz in fs ==> fs[gz] == File(r.body) && HasHeader(r.headers, "Content-Encoding")) &&
        (!(supportsGzip && gz in fs) ==>
           fs[file].File? &&
           (HasHeader(r.headers, "Content-Encoding") <==> supportsGzip && |fs[file].content| > CompressThreshold) &&
           (!supportsGzip || |fs[file].content| <= CompressThreshold ==> r.body == fs[file].content))
  {
    var r := ServeStaticFile(path, supportsGzip, fs, guess, gzip);
    if r.Response? {
      var file := StaticPath(path).value;
      var gz := file + ".gz";
      if supportsGzip && gz in fs {
        assert r.headers[1].0 == "Content-Encoding";
      } else {
        var content := fs[file].content;
        assert r == Send(ContentType(guess, file), "public, max-age=3600", ByteData(content), supportsGzip, gzip);
        SendEncoding(ContentType(guess, file), "public, max-age=3600", ByteData(content), supportsGzip, gzip);
      }
    }
  }
}
