/** `handle_http_route`: joining the path, the lock handover of the cache, and the responses. */
module Router {
  import opened Wrappers
  import opened CStrings
  import opened Decimal
  import opened HttpParser
  import opened Framing
  import opened Paths
  import opened Cache
  import Config

  // ---------- Path join ----------

  /** The directory after the bounded copies into the pool and into the client context. */
  function ContextDir(configured: string): (d: string)
    ensures |d| <= 255
  {
    Cut(255, Cut(255, configured))
  }

  /** The code's join: the 512-byte buffer is never overrun. */
  method JoinPath(publicDir: array<char>, path: array<char>) returns (filePath: array<char>)
    requires publicDir.Length == 256 && Terminated(publicDir[..])
    requires path.Length == MAX_PATH_SIZE && Terminated(path[..])
    ensures fresh(filePath) && filePath.Length == 512
    ensures Terminated(filePath[..]) && CStr(filePath[..]) == Join(CStr(publicDir[..]), CStr(path[..]))
  {
    filePath := new char[512];
    BoundedCopy(filePath, CStr(publicDir[..]));
    if CStr(path[..]) == "/" {
      StrCat(filePath, "/index.html");
    } else {
      StrCat(filePath, CStr(path[..]));
    }
  }

  /**
   From the configuration file and the request to the joined path: at most 511 bytes with the NUL.
   The three 255-byte cuts (loader, pool and context, parser) are what makes it fit.
   */
  lemma JoinedPathFits(config: string, before: Config.Settings, request: string)
    requires |before.publicDir| <= 255 && |before.certPath| <= 255 && |before.keyPath| <= 255
    requires Parse(request).Some?
    ensures ContextDir(Config.Load(config, before).publicDir) == Config.Load(config, before).publicDir
    ensures |Join(ContextDir(Config.Load(config, before).publicDir), Parse(request).value.path)| + 1 <= 511
  {
    Config.LoadedPathsFit(config, before);
  }

  // ---------- Disk and responses ----------

  datatype File = File(content: string, mtime: int)

  type Disk = map<string, File>

  /** What a load finds when the disk stands still and no call fails. */
  function ProbeOf(disk: Disk, path: string): Probe {
    if path in disk
    then Probe(true, Some(Stat(|disk[path].content|, disk[path].mtime)), true, disk[path].content)
    else Probe(false, None, true, "")
  }

  /**
   What one request meets: the cache when it takes the read lock, the answers of stat and of the
   reload, and the file that read_file returns.
   */
  datatype Snapshot = Snapshot(view: seq<Entry>, stat: Option<Stat>, reload: Probe, file: Option<string>)

  /** A request that meets a still disk. */
  function Still(view: seq<Entry>, disk: Disk, path: string): Snapshot {
    Snapshot(view, ProbeOf(disk, path).stat, ProbeOf(disk, path),
             if path in disk then Some(disk[path].content) else None)
  }

  datatype Outcome = Cached(mime: string, content: string) | OnDisk(content: string) | Missing

  predicate Stale(e: Entry, stat: Option<Stat>) {
    stat.Some? && stat.value.mtime > e.lastModified
  }

  /** The cache after the router's visit to slot `i`. */
  function Visited(s: Snapshot, i: nat): seq<Entry>
    requires i < |s.view|
  {
    if Stale(s.view[i], s.stat) then Reloaded(s.view, i, s.reload) else s.view
  }

  function Fetch(useCache: int, path: string, s: Snapshot): Outcome {
    var hit := if useCache == 1 then FirstMatch(s.view, path) else None;
    match hit
    case Some(i) => Cached(Visited(s, i)[i].mime, Visited(s, i)[i].content)
    case None => if s.file.Some? then OnDisk(s.file.value) else Missing
  }

  /** The error pages, as `get_error_html` prints them. */
  type Pages = nat -> string

  function FileResponse(o: Outcome, path: string, keepAlive: bool, pages: Pages): Response {
    match o
    case Cached(mime, content) => Ok(mime, content, keepAlive)
    case OnDisk(content) => Ok(GetMimeType(path), content, keepAlive)
    case Missing => Error(404, "Not Found", pages(404), keepAlive)
  }

  function Route(req: Request, dir: string, useCache: int, s: Snapshot, pages: Pages): Response {
    if req.httpMethod == POST then Ok("application/json", PostBody(req.contentLength), req.keepAlive)
    else if !IsSafePath(req.path) then Error(403, "Forbidden", pages(403), req.keepAlive)
    else FileResponse(Fetch(useCache, Join(dir, req.path), s), Join(dir, req.path), req.keepAlive, pages)
  }

  // ---------- The code ----------

  /** The sending side of the SSL session. */
  class Sink {
    var out: string

    constructor ()
      ensures out == ""
    {
      out := "";
    }

    method Write(s: string)
      modifies this
      ensures out == old(out) + s
    {
      out := out + s;
    }

    /** A header buffer and a body, as every response is sent. */
    method Send(r: Response)
      modifies this
      ensures out == old(out) + Wire(r)
    {
      Write(HeadBytes(r));
      Write(BodyBytes(r.content));
    }
  }

  /** The GET branch once the path is joined; `s` holds the answers of the system calls. */
  method ServeFile(cache: LithCache, ssl: Sink, useCache: int, path: string, keepAlive: bool, s: Snapshot, pages: Pages)
    requires cache.Valid() && cache.lock == Unlocked && cache.View() == s.view
    modifies cache, cache.entries, ssl
    ensures cache.Valid() && cache.lock == Unlocked
    ensures ssl.out == old(ssl.out) + Wire(FileResponse(Fetch(useCache, path, s), path, keepAlive, pages))
    ensures useCache == 1 && FirstMatch(s.view, path).Some? ==>
              cache.View() == Visited(s, FirstMatch(s.view, path).value)
    ensures useCache != 1 || FirstMatch(s.view, path) == None ==> cache.View() == s.view
  {
    hide Wire, Ok, Error, FirstMatch, GetMimeType;
    if useCache == 1 {
      var cached := cache.Lookup(path);
      if cached != None {
        var i := cached.value;
        if s.stat.Some? {
          var before := cache.Get(i);
          if s.stat.value.mtime > before.lastModified {
            cache.Unlock();
            cache.WrLock();
            var _ := cache.HotReload(i, s.reload);
            cache.Unlock();
            cache.RdLock();
          }
        }
        assert cache.View() == Visited(s, i);
        var entry := cache.Get(i);
        ssl.Send(Ok(entry.mime, entry.content, keepAlive));
        cache.Unlock();
        return;
      }
    }
    if s.file.Some? {
      ssl.Send(Ok(GetMimeType(path), s.file.value, keepAlive));
    } else {
      ssl.Send(Error(404, "Not Found", pages(404), keepAlive));
    }
  }

  /** Every path through the router ends with the caller holding no lock. */
  method HandleHttpRoute(cache: LithCache, ssl: Sink, publicDir: array<char>, req: HttpRequest, useCache: int,
                         s: Snapshot, pages: Pages)
    requires publicDir.Length == 256 && Terminated(publicDir[..])
    requires req.path.Length == MAX_PATH_SIZE && Terminated(req.path[..]) && req.httpMethod != UNKNOWN
    requires cache.Valid() && cache.lock == Unlocked && cache.View() == s.view
    modifies cache, cache.entries, ssl
    ensures cache.Valid() && cache.lock == Unlocked
    ensures ssl.out == old(ssl.out) + Wire(Route(old(req.View()), old(CStr(publicDir[..])), useCache, s, pages))
  {
    hide Wire, Ok, Error, Fetch, Find, Join, IsSafePath, PostBody, FileResponse, StrLen;
    if req.httpMethod == POST {
      ssl.Send(Ok("application/json", PostBody(req.contentLength), req.keepAlive));
    } else if req.httpMethod == GET {
      if !IsSafePath(CStr(req.path[..])) {
        ssl.Send(Error(403, "Forbidden", pages(403), req.keepAlive));
        return;
      }
      var filePath := JoinPath(publicDir, req.path);
      ServeFile(cache, ssl, useCache, CStr(filePath[..]), req.keepAlive, s, pages);
    }
  }

  /**
   The filter in the router: what is opened for an accepted path lies inside the public directory
   exactly as `StaysInside` says, so always when directory and path are ordinary ones; any other
   path gets the 403 page whatever the cache and the disk hold.
   */
  lemma RouteFilters(req: Request, cwd: seq<string>, dir: string, useCache: int, s: Snapshot, pages: Pages)
    requires req.httpMethod == GET
    ensures if IsSafePath(req.path)
            then (Contained(cwd, dir, req.path) <==> StaysInside(cwd, dir, req.path))
                 && (dir != "" && req.path != "" && req.path[0] == '/' ==> Contained(cwd, dir, req.path))
                 && Route(req, dir, useCache, s, pages) ==
                    FileResponse(Fetch(useCache, Join(dir, req.path), s), Join(dir, req.path), req.keepAlive, pages)
            else Route(req, dir, useCache, s, pages) == Error(403, "Forbidden", pages(403), req.keepAlive)
  {
    hide IsSafePath, Contained, StaysInside, Resolve, FileResponse, Fetch, Error;
    if IsSafePath(req.path) {
      ContainmentIff(cwd, dir, req.path);
      if dir != "" && req.path != "" && req.path[0] == '/' {
        RootContainment(cwd, dir, req.path);
      }
    }
  }

  // ---------- Cache transparency ----------

  /** The freshness that `CacheProtocol` proves of every reachable cache, and the MIME types of the disk branch. */
  predicate Agrees(view: seq<Entry>, disk: Disk) {
    forall i :: 0 <= i < |view| && view[i].active ==>
                  && view[i].mime == GetMimeType(view[i].filepath)
                  && (view[i].filepath in disk ==>
                        && view[i].lastModified <= disk[view[i].filepath].mtime
                        && (view[i].lastModified == disk[view[i].filepath].mtime ==>
                              view[i].content == disk[view[i].filepath].content))
  }

  /** What the cache sends for a path when it holds the entry is what the disk has there. */
  predicate AsOnDisk(e: Entry, path: string, disk: Disk) {
    && path in disk && e.mime == GetMimeType(path)
    && (e.lastModified < disk[path].mtime || e.content == disk[path].content)
  }

  lemma FetchTransparent(view: seq<Entry>, disk: Disk, path: string)
    ensures FirstMatch(view, path) == None ==>
              Fetch(1, path, Still(view, disk, path)) == Fetch(0, path, Still(view, disk, path))
    ensures FirstMatch(view, path).Some? ==>
              var e := view[FirstMatch(view, path).value];
              var now := if path in disk && e.lastModified < disk[path].mtime then disk[path].content else e.content;
              Fetch(1, path, Still(view, disk, path)) == Cached(e.mime, now)
  {
  }

  lemma OkIsNotError(mime: string, content: string, status: nat, text: string, page: string, keepAlive: bool)
    ensures Ok(mime, content, keepAlive) != Error(status, text, page, keepAlive)
  {
    assert |Ok(mime, content, keepAlive).lines| == 5;
    assert |Error(status, text, page, keepAlive).lines| == 4;
  }

  lemma OkTells(m1: string, c1: string, m2: string, c2: string, keepAlive: bool)
    requires Ok(m1, c1, keepAlive) == Ok(m2, c2, keepAlive)
    ensures m1 == m2 && c1 == c2
  {
    var l1, l2 := Ok(m1, c1, keepAlive).lines[2], Ok(m2, c2, keepAlive).lines[2];
    assert l1[14..] == m1 && l2[14..] == m2;
  }

  /**
   Over any cache and any disk, the response to a request is the one without the cache, byte for
   byte, exactly when the entry that answers, if any, stands for the file at the path.
   */
  lemma CacheTransparentIff(view: seq<Entry>, disk: Disk, req: Request, dir: string, pages: Pages)
    requires req.httpMethod == GET && IsSafePath(req.path)
    ensures var path := Join(dir, req.path); var s := Still(view, disk, path);
            Route(req, dir, 1, s, pages) == Route(req, dir, 0, s, pages)
            <==> (FirstMatch(view, path).Some? ==> AsOnDisk(view[FirstMatch(view, path).value], path, disk))
  {
    hide FirstMatch, GetMimeType, Ok, Error, Join, IsSafePath;
    var path := Join(dir, req.path);
    var s := Still(view, disk, path);
    FetchTransparent(view, disk, path);
    if FirstMatch(view, path).Some? {
      var c := Fetch(1, path, s);
      if path !in disk {
        OkIsNotError(c.mime, c.content, 404, "Not Found", pages(404), req.keepAlive);
      } else if Ok(c.mime, c.content, req.keepAlive) == Ok(GetMimeType(path), disk[path].content, req.keepAlive) {
        OkTells(c.mime, c.content, GetMimeType(path), disk[path].content, req.keepAlive);
      }
    }
  }

  /**
   Cache transparency: over a cache that agrees with the disk, the response is the one without the
   cache exactly when the file is not both cached and gone from the disk.
   */
  lemma TransparencyIff(view: seq<Entry>, disk: Disk, req: Request, dir: string, pages: Pages)
    requires Agrees(view, disk) && req.httpMethod == GET && IsSafePath(req.path)
    ensures var path := Join(dir, req.path); var s := Still(view, disk, path);
            Route(req, dir, 1, s, pages) == Route(req, dir, 0, s, pages)
            <==> (FirstMatch(view, path).Some? ==> path in disk)
  {
    hide GetMimeType, Join, IsSafePath, Route, Still;
    CacheTransparentIff(view, disk, req, dir, pages);
  }

  // ---------- The primed cache ----------

  /** thread_pool_init: the two pages put into the cache before the workers start. */
  function Prime(dir: string, disk: Disk): seq<Entry> {
    Added(Added([], dir + "/index.html", "text/html", ProbeOf(disk, dir + "/index.html")),
          dir + "/style.css", "text/css", ProbeOf(disk, dir + "/style.css"))
  }

  /** Both pages, when they are on the disk and not too large, are found in it under their own names. */
  lemma PrimedPages(dir: string, disk: Disk)
    requires |dir| <= 244
    ensures var page := dir + "/index.html";
            page in disk && |disk[page].content| <= MAX_CACHE_FILE_SIZE ==> FirstMatch(Prime(dir, disk), page).Some?
    ensures var page := dir + "/style.css";
            page in disk && |disk[page].content| <= MAX_CACHE_FILE_SIZE ==> FirstMatch(Prime(dir, disk), page).Some?
  {
    var index, style := dir + "/index.html", dir + "/style.css";
    var first := Added([], index, "text/html", ProbeOf(disk, index));
    LookupAfterAdd([], index, "text/html", ProbeOf(disk, index), index);
    LookupAfterAdd(first, style, "text/css", ProbeOf(disk, style), index);
    LookupAfterAdd(first, style, "text/css", ProbeOf(disk, style), style);
  }

  /** Files are only written in place, each write at a later time. */
  predicate Later(disk: Disk, now: Disk) {
    forall p :: p in disk ==>
      && p in now && disk[p].mtime <= now[p].mtime
      && (disk[p].mtime == now[p].mtime ==> now[p].content == disk[p].content)
  }

  lemma PrimedMimes(dir: string)
    ensures GetMimeType(dir + "/index.html") == "text/html" && GetMimeType(dir + "/style.css") == "text/css"
  {
    hide Extension;
    ExtensionIs(dir + "/index", ".html");
    assert dir + "/index" + ".html" == dir + "/index.html";
    ExtensionIs(dir + "/style", ".css");
    assert dir + "/style" + ".css" == dir + "/style.css";
    assert ".css" != ".html" && ".css" != ".htm";
  }

  lemma PrimeEntry(view: seq<Entry>, path: string, mime: string, disk: Disk, now: Disk)
    requires |view| < MAX_CACHE_ENTRIES && |path| <= 255 && |mime| <= 63 && mime == GetMimeType(path)
    requires Later(disk, now) && Agrees(view, now) && forall i :: 0 <= i < |view| ==> view[i].filepath in now
    ensures var after := Added(view, path, mime, ProbeOf(disk, path));
            Agrees(after, now) && |after| <= |view| + 1 && forall i :: 0 <= i < |after| ==> after[i].filepath in now
  {
  }

  /**
   With a public directory of at most 244 bytes the primed cache is transparent for every request,
   at once and after any in-place writes.
   */
  lemma PrimedTransparent(dir: string, disk: Disk, now: Disk, req: Request, pages: Pages)
    requires |dir| <= 244 && Later(disk, now) && req.httpMethod == GET && IsSafePath(req.path)
    ensures var s := Still(Prime(dir, disk), now, Join(dir, req.path));
            Route(req, dir, 1, s, pages) == Route(req, dir, 0, s, pages)
  {
    hide GetMimeType, Agrees, Route, Later;
    PrimedMimes(dir);
    EmptyAgrees(now);
    var first := Added([], dir + "/index.html", "text/html", ProbeOf(disk, dir + "/index.html"));
    PrimeEntry([], dir + "/index.html", "text/html", disk, now);
    PrimeEntry(first, dir + "/style.css", "text/css", disk, now);
    TransparencyIff(Prime(dir, disk), now, req, dir, pages);
  }

  lemma EmptyAgrees(disk: Disk)
    ensures Agrees([], disk)
  {
  }

  /** The path whose join is the cut key of the index page. */
  function CutPath(dir: string): string
    requires 244 < |dir| <= 255
  {
    (dir + "/index.html")[|dir|..255]
  }

  /**
   With a longer directory the key of the index page is cut, and a request for the cut path, which
   is not on the disk, gets the index page from the cache.
   */
  lemma LongDirNotTransparent(dir: string, disk: Disk, req: Request, pages: Pages)
    requires 244 < |dir| <= 255 && |dir| != 254
    requires req.httpMethod == GET && req.path == CutPath(dir)
    requires dir + "/index.html" in disk && |disk[dir + "/index.html"].content| <= MAX_CACHE_FILE_SIZE
    requires Cut(255, dir + "/index.html") !in disk
    ensures IsSafePath(req.path)
    ensures var s := Still(Prime(dir, disk), disk, Join(dir, req.path));
            && Route(req, dir, 1, s, pages) == Ok("text/html", disk[dir + "/index.html"].content, req.keepAlive)
            && Route(req, dir, 0, s, pages) == Error(404, "Not Found", pages(404), req.keepAlive)
  {
    hide GetMimeType, Ok, Error;
    var index := dir + "/index.html";
    var key := Cut(255, index);
    CutPathSafe(dir);
    assert req.path != "/" by {
      assert |"/"| == 1 && |req.path| == 255 - |dir|;
    }
    assert Join(dir, req.path) == key;
    var first := Added([], index, "text/html", ProbeOf(disk, index));
    assert first == [NewEntry(index, "text/html", ProbeOf(disk, index))];
    LookupAfterAdd([], index, "text/html", ProbeOf(disk, index), key);
    LookupAfterAdd(first, dir + "/style.css", "text/css", ProbeOf(disk, dir + "/style.css"), key);
    assert Prime(dir, disk)[0] == first[0];
  }

  lemma CutPathSafe(dir: string)
    requires 244 < |dir| <= 255
    ensures IsSafePath(CutPath(dir))
  {
    var s := CutPath(dir);
    assert forall i :: 0 <= i < |s| ==> s[i] == "/index.html"[i];
    forall i: nat ensures !OccursAt(s, "..", i) {
      OccursByte(s, "..", i, 0);
      OccursByte(s, "..", i, 1);
    }
  }

  /** At 254 bytes the keys are cut to the directory and a slash, which no request asks for. */
  lemma NeverHit(dir: string, disk: Disk, path: string)
    requires |dir| == 254
    ensures FirstMatch(Prime(dir, disk), Join(dir, path)) == None
  {
    var index, style := dir + "/index.html", dir + "/style.css";
    assert Cut(255, index) == dir + "/" && Cut(255, style) == dir + "/";
    assert Join(dir, path) != dir + "/" by {
      assert Join(dir, path)[254..] == Suffix(path) && (dir + "/")[254..] == "/";
      assert |"/index.html"| == 11;
    }
    var first := Added([], index, "text/html", ProbeOf(disk, index));
    LookupAfterAdd([], index, "text/html", ProbeOf(disk, index), Join(dir, path));
    LookupAfterAdd(first, style, "text/css", ProbeOf(disk, style), Join(dir, path));
  }

  ghost predicate TransparentForAll(dir: string, disk: Disk, pages: Pages) {
    forall req: Request :: req.httpMethod == GET && IsSafePath(req.path) ==>
      var s := Still(Prime(dir, disk), disk, Join(dir, req.path));
      Route(req, dir, 1, s, pages) == Route(req, dir, 0, s, pages)
  }

  /** The keys of the primed entries, and what a request must ask for to reach them. */
  lemma PrimeKeys(dir: string, disk: Disk, i: nat)
    requires i < |Prime(dir, disk)|
    ensures var e := Prime(dir, disk)[i];
            e.active && (e.filepath == Cut(255, dir + "/index.html") || e.filepath == Cut(255, dir + "/style.css"))
  {
  }

  /** The key of a page is the directory and what the cut leaves of the page's name. */
  lemma KeyReached(dir: string, name: string) returns (path: string)
    requires 244 < |dir| <= 255 && |dir| != 254 && (name == "/index.html" || name == "/style.css")
    ensures IsSafePath(path) && Join(dir, path) == Cut(255, dir + name)
  {
    var key := Cut(255, dir + name);
    path := key[|dir|..];
    assert forall i :: 0 <= i < |path| ==> path[i] == name[i];
    forall i: nat ensures !OccursAt(path, "..", i) {
      OccursByte(path, "..", i, 0);
      OccursByte(path, "..", i, 1);
    }
    assert key == dir + path;
    assert |path| != 1;
  }

  /**
   The primed cache, for every disk: it is transparent for all requests exactly when the directory has
   at most 244 bytes, or 254, or each primed entry stands for the file at its own, cut, key.  The
   length is the room that the 255-byte key leaves for `/index.html`; at 254 no request has the key.
   */
  lemma PrimedTransparentIff(dir: string, disk: Disk, pages: Pages)
    requires |dir| <= 255
    ensures TransparentForAll(dir, disk, pages) <==>
            || |dir| <= 244 || |dir| == 254
            || forall i :: 0 <= i < |Prime(dir, disk)| ==> KeyStands(Prime(dir, disk), i, disk)
  {
    hide Prime, Still, Join, Route, Later, Cut, AsOnDisk, FirstMatch, IsSafePath;
    var view := Prime(dir, disk);
    if |dir| <= 244 {
      LaterItself(disk);
      forall req: Request | req.httpMethod == GET && IsSafePath(req.path)
        ensures var s := Still(view, disk, Join(dir, req.path));
                Route(req, dir, 1, s, pages) == Route(req, dir, 0, s, pages)
      {
        PrimedTransparent(dir, disk, disk, req, pages);
      }
    } else if |dir| == 254 {
      forall req: Request | req.httpMethod == GET && IsSafePath(req.path)
        ensures var s := Still(view, disk, Join(dir, req.path));
                Route(req, dir, 1, s, pages) == Route(req, dir, 0, s, pages)
      {
        NeverHit(dir, disk, req.path);
        CacheTransparentIff(view, disk, req, dir, pages);
      }
    } else if forall i :: 0 <= i < |view| ==> KeyStands(view, i, disk) {
      forall req: Request | req.httpMethod == GET && IsSafePath(req.path)
        ensures var s := Still(view, disk, Join(dir, req.path));
                Route(req, dir, 1, s, pages) == Route(req, dir, 0, s, pages)
      {
        CacheTransparentIff(view, disk, req, dir, pages);
        var hit := FirstMatch(view, Join(dir, req.path));
        assert hit.Some? ==> KeyStands(view, hit.value, disk);
      }
    } else {
      var i :| 0 <= i < |view| && !KeyStands(view, i, disk);
      PrimeKeys(dir, disk, i);
      var name := if view[i].filepath == Cut(255, dir + "/index.html") then "/index.html" else "/style.css";
      var path := KeyReached(dir, name);
      var req := Request(GET, path, 0, None, true);
      CacheTransparentIff(view, disk, req, dir, pages);
    }
  }

  /** If a lookup of the entry's own key finds it, it stands for the file there. */
  predicate KeyStands(view: seq<Entry>, i: nat, disk: Disk)
    requires i < |view|
  {
    FirstMatch(view, view[i].filepath) == Some(i) ==> AsOnDisk(view[i], view[i].filepath, disk)
  }

  /** With an index page to cache and nothing at its cut key, the length alone decides. */
  lemma PrimedTransparentByLength(dir: string, disk: Disk, pages: Pages)
    requires |dir| <= 255
    requires dir + "/index.html" in disk && |disk[dir + "/index.html"].content| <= MAX_CACHE_FILE_SIZE
    requires 244 < |dir| ==> Cut(255, dir + "/index.html") !in disk
    ensures TransparentForAll(dir, disk, pages) <==> |dir| <= 244 || |dir| == 254
  {
    hide Prime, Still, Join, Ok, Error, Cut, CutPath;
    PrimedTransparentIff(dir, disk, pages);
    if 244 < |dir| && |dir| != 254 {
      var req := Request(GET, CutPath(dir), 0, None, true);
      LongDirNotTransparent(dir, disk, req, pages);
      OkIsNotError("text/html", disk[dir + "/index.html"].content, 404, "Not Found", pages(404), true);
    }
  }

  lemma LaterItself(disk: Disk)
    ensures Later(disk, disk)
  {
  }

  // ---------- Framing ----------

  /** What a request meets is small enough for the `int` lengths, and its MIME types are header text. */
  predicate SnapshotOk(s: Snapshot) {
    && (forall i :: 0 <= i < |s.view| ==>
          '\r' !in s.view[i].mime && |s.view[i].mime| <= 63 && |s.view[i].content| < 0x8000_0000)
    && |s.reload.data| < 0x8000_0000
    && (s.file.Some? ==> |s.file.value| < 0x8000_0000)
  }

  predicate PagesOk(pages: Pages) {
    |pages(400)| < 2048 && |pages(403)| < 2048 && |pages(404)| < 2048
  }

  /** The response is framed, within `int` lengths, and announces a close exactly when the server does not stay. */
  predicate FramedAs(r: Response, stays: bool) {
    && Framed(r) && |r.content| < 0x8000_0000
    && (AnnouncesClose(MessageOf(r)) <==> !stays) && (AnnouncesStay(MessageOf(r)) <==> stays)
  }

  lemma OkFramedAs(mime: string, content: string, keepAlive: bool)
    requires '\r' !in mime && |mime| <= 63 && |content| < 0x8000_0000
    ensures FramedAs(Ok(mime, content, keepAlive), keepAlive)
  {
    hide Framed, AnnouncesClose, AnnouncesStay, Ok, MessageOf;
    OkFramed(mime, content, keepAlive);
    OkContent(mime, content, keepAlive);
  }

  lemma ErrorFramedAs(status: nat, text: string, page: string, keepAlive: bool)
    requires status < 1000 && '\r' !in text && |text| <= 40 && |page| < 2048
    ensures FramedAs(Error(status, text, page, keepAlive), status != 400 && keepAlive)
  {
    hide Framed, AnnouncesClose, AnnouncesStay, Error, MessageOf;
    ErrorFramed(status, text, page, keepAlive);
    ErrorContent(status, text, page, keepAlive);
  }

  /** What is fetched keeps the bounds. */
  lemma FetchOk(useCache: int, path: string, s: Snapshot)
    requires SnapshotOk(s)
    ensures match Fetch(useCache, path, s)
            case Cached(mime, content) => '\r' !in mime && |mime| <= 63 && |content| < 0x8000_0000
            case OnDisk(content) => |content| < 0x8000_0000
            case Missing => true
  {
    hide FirstMatch;
  }

  /** Each routed response is framed, and announces a close exactly when the request asked for it. */
  lemma RouteFramed(req: Request, dir: string, useCache: int, s: Snapshot, pages: Pages)
    requires SnapshotOk(s) && PagesOk(pages) && LONG_MIN <= req.contentLength <= LONG_MAX
    ensures FramedAs(Route(req, dir, useCache, s, pages), req.keepAlive)
  {
    hide FramedAs, Ok, Error, Fetch, GetMimeType, IsSafePath, SnapshotOk, Join;
    if req.httpMethod == POST {
      assert '\r' !in "application/json";
      OkFramedAs("application/json", PostBody(req.contentLength), req.keepAlive);
    } else if !IsSafePath(req.path) {
      ErrorFramedAs(403, "Forbidden", pages(403), req.keepAlive);
    } else {
      var path := Join(dir, req.path);
      FetchOk(useCache, path, s);
      match Fetch(useCache, path, s)
      case Cached(mime, content) => OkFramedAs(mime, content, req.keepAlive);
      case OnDisk(content) => OkFramedAs(GetMimeType(path), content, req.keepAlive);
      case Missing => ErrorFramedAs(404, "Not Found", pages(404), req.keepAlive);
    }
  }

  lemma OkContent(mime: string, content: string, keepAlive: bool)
    ensures Ok(mime, content, keepAlive).content == content
  {
  }

  lemma ErrorContent(status: nat, text: string, page: string, keepAlive: bool)
    ensures Error(status, text, page, keepAlive).content == page
  {
  }
}
