# LITH in Dafny

LITH is a small multi-threaded HTTPS file server in C. This project models its five hard parts and
proves what they promise:

- **Thread pool** (`ThreadPool`, `WorkerProtocol`, `WorkerLives`). The queue is a linked list on the heap,
  refined to a sequence. The acceptor, any number of workers and the shutdown thread are a state machine
  around the mutex and the condition variable; spurious wakeups and stealing by a worker that never slept
  are steps like any other. The queue's critical sections are the same functions in both modules.
  `WorkerLives` has the whole life of each socket, and that no thread is ever stuck.
- **Hot-reload cache** (`Cache`, `CacheProtocol`, `CacheAnswers`, `CacheAgreement`). `Cache` is the table as
  the calling thread sees it, with the lock it holds. `CacheProtocol` is every interleaving of the workers
  and the disk: fopen, stat, each fread, the swap of the block and the new time are separate steps, the
  disk is written in place or a path is made to name a new inode, and times strictly grow. `CacheAnswers`
  shows that each request that hits is answered exactly once, and `CacheAgreement` carries freshness over
  to the responses.
- **Requests and responses** (`HttpParser`, `RequestText`, `Framing`, `Router`, `Session`, `Replies`). Parsing
  over NUL-terminated buffers, the POST loop, the router and the keep-alive loop, against a client that
  cuts the output by Content-Length (sections 6.2, 6.3, 9.3 and 9.6 of RFC 9112). `Replies` is what that
  client reads: status, fields and content of every answer.
- **Redirect** (`Redirect`). The cleartext answer built from the peeked request.
- **Paths and configuration** (`Paths`, `Config`). Containment under the public directory with dot
  segments resolved as in section 5.2.4 of RFC 3986, the bound on the joined path across loader, pool,
  context and parser, and the line-folding configuration loader with its in-place trimming.

`CStrings` and `Decimal` hold the C library calls: bytes are `char`, buffers are `array<char>`, and
`strstr`, `strchr`, `strlen` and `strtol` are functions of the string that a buffer holds.

## Where the code does less than it looks

Each of these is proved, with the exact condition or a concrete run:

- A response is framed exactly when its content is shorter than 2 GiB, because the body length is
  converted to `int` (`Framing.RoundTripIff`).
- The `..` filter looks at the request path alone, so whether an accepted path stays inside depends on
  how the public directory is written, and `Paths.ContainmentIff` gives the condition for every
  directory: one whose last segment is a name needs a leading slash; one that ends in a slash or in `..`
  needs nothing; after `.` a first segment `.` forms a `..` across the join
  (`Paths.DotDirectoryEscapes`: with the directory `.` the path `./x` opens `../x`); an empty directory
  is no root at all (`Paths.EmptyRootEscapes`).
- Stat before fread keeps the cache fresh as long as no path is replaced between the fopen and the stat of
  its own load and no fread fails while the file is still as stat saw it. An fread that meets the end of a
  file truncated under it is no failure. Both are conditions on the actions of a run, and neither can be
  dropped (`CacheProtocol.RenameBreaksFreshness`, `CacheProtocol.ShortReadBreaksFreshness`).
- A cached response is the disk's exactly when the entry stands for the file (`Router.CacheTransparentIff`).
  Keys are cut at 255 bytes, so the primed cache is transparent for every request exactly when the public
  directory has at most 244 bytes, or 254, or each primed entry stands for the file at its own cut key
  (`Router.PrimedTransparentIff`); with an index page and nothing at its cut key the length alone decides
  (`Router.PrimedTransparentByLength`).
- Two configuration files in a row read as each in turn exactly when the first one's last line is closed
  (`Config.LinesAppendIff`).
- The redirect looks at no more than 1023 bytes of what has arrived, and takes the first `Host: ` in them for
  the header, wherever it stands. It goes to the requested host and path exactly when the path and the host
  line's value have arrived in those bytes and nothing before the host line reads `Host: ` or what does
  names the same host, the defaults standing in for themselves (`Redirect.RedirectTarget`). A host line
  behind long headers is missed (`Redirect.LateHostMissed`), an `X-Forwarded-Host` header in front wins
  (`Redirect.ForwardedHostWins`), a path that ends with `Host:` makes the version the host
  (`Redirect.PathTakenForHost`), and a header spelled otherwise is missed (`Redirect.OtherSpelling`,
  `Redirect.LowerCaseHostMissed`).
- The path is copied into the Location line as it stands. A client reads the answer back as the lines that
  the server printed exactly when the path holds no CRLF (`Redirect.AnswerFramed`); a CRLF inside it adds
  a header line (`Redirect.AnswerSplits`, `Redirect.SplittingRequest`). A client that ends lines at a bare
  LF, as section 2.2 of RFC 9112 allows, does so exactly when neither host nor path holds a newline
  (`Redirect.AnswerFramedLf`).
- A worker that reads the shutdown flag as set just after popping leaves the socket open. Which sockets are
  lost so is decided at the instant the flag is set: those that some worker has popped and not yet looked
  at the flag for (`WorkerProtocol.FlagDecides`). Some run loses one (`WorkerProtocol.DroppedRun`), and
  sockets still queued at that instant are never delivered or closed (`WorkerProtocol.AbandonedForever`).
- A POST that does not fit the 4095 bytes of the buffer leaves the end of its own body to be read as the
  next request (`Session.LeftOver`, `Session.BodyTakenForRequest`).
- Bytes that arrive behind a request in the same read are lost (`Session.BytesBehindAreLost`,
  `Session.BytesBehindBodyAreLost`). When the request has no connection header of its own, the first one
  behind it is taken for its own, so they change nothing exactly when they do not change that option
  (`Session.BytesBehindIff`, `Session.PipelinedCloseTaken`).

## Model

| member | source | states |
|---|---|---|
| ThreadPool.Pool.Push | src/server_worker.c:57-87 | the list stays acyclic, ends at `tail`, has `size` nodes; the socket is appended, or closed exactly when memory or the pool is gone, and then nothing moves |
| ThreadPool.Pool.Pop | src/server_worker.c:89-113 | one pass of the wait loop: wait, stop, or the oldest socket, which leaves the list; shutdown wins over a non-empty queue |
| ThreadPool.Pool.Shutdown | src/server_worker.c:115-117 | only the flag changes |
| WorkerProtocol.MoveBalance | src/server_worker.c:131-301 | every worker path hands over its socket and SSL session without losing or doubling either |
| WorkerProtocol.InvStep | src/server_worker.c:57-119 | every action of any thread keeps mutual exclusion, the wakeup bound, FIFO order and every socket's ledger |
| WorkerProtocol.NoLostWakeup | src/server_worker.c:67-108 | in every run before shutdown, outside critical sections, while somebody sleeps there is a woken worker for each queued socket |
| WorkerProtocol.NeverAllAsleep | src/server_worker.c:85-94 | a non-empty queue never coexists with a pool that is all asleep |
| WorkerProtocol.WokenWorkerDelivers | src/server_worker.c:90-112 | from such a state some woken worker takes the oldest socket in two steps |
| WorkerProtocol.Fifo | src/server_worker.c:76-106 | over every run, queued sockets are the delivered ones followed by the waiting ones, in order |
| WorkerProtocol.ExactlyOnePlace | src/server_worker.c:57-301 | an accepted socket is in exactly one of queued, owned by one thread, closed once, dropped; none is dropped before the flag is set |
| WorkerProtocol.DroppedIff | src/server_worker.c:132-136 | over every run a socket is dropped exactly when some step is a worker reading the flag as set with the socket just popped; the helper of `FlagDecides` |
| WorkerProtocol.FlagDecides | src/server_worker.c:115-136 | after the flag is set, a socket is dropped or still popped and unlooked-at exactly when some worker had it popped at that instant |
| WorkerProtocol.DroppedRun | src/server_worker.c:132-136 | a run that ends with an accepted socket neither closed nor owned by anyone |
| WorkerProtocol.AbandonedForever | src/server_worker.c:96-119 | sockets still queued when the flag is set stay queued for ever: never delivered, closed or dropped |
| WorkerProtocol.DeliveredOnce | src/server_worker.c:101-112 | no socket is delivered to two pops |
| WorkerProtocol.SslFreedOnce | src/server_worker.c:227-300 | an SSL session is created at most once per socket, and by the time the socket is closed it has been freed exactly as often |
| WorkerLives.LifeOfSocket | src/server_worker.c:131-301 | over every run, a socket closed after its delivery was silent, or failed SSL_new, or was redirected exactly once, or failed the handshake, or had its session served; one still with a worker is on its way through one of these |
| WorkerLives.EveryLifeGoesOn | src/server_worker.c:131-301 | from any state, the owner of a socket can go on with any of these lives by its own events until the socket is closed and the worker is back at the queue |
| WorkerProtocol.NobodySleepsAfterBroadcast | src/server_worker.c:115-119 | after the broadcast no worker sleeps, ever |
| WorkerProtocol.EveryWorkerLeaves | src/server_worker.c:92-136 | once the flag is set and the mutex free, a worker at the queue exits in two steps of its own, one with a popped socket in one |
| WorkerLives.HolderReleases | src/server_worker.c:67-119 | whoever holds the mutex, in any reachable state, gives it back by at most three actions of its own |
| WorkerLives.ShutdownFinishes | src/server_worker.c:115-119 | once it holds the mutex, the shutdown thread sets the flag, wakes everybody and frees the mutex |
| WorkerLives.AcceptorFinishes | src/server_worker.c:57-87 | with the mutex free the acceptor queues its socket last and wakes one sleeper if there is one, or closes the socket once the flag is set |
| WorkerLives.SpuriousWakeup | src/server_worker.c:92-94 | a sleeper may wake at any time, and only wakes |
| Cache.LithCache.constructor | src/server/cache.c:13-22 | an empty table, no lock held |
| Cache.LithCache.Add | src/server/cache.c:24-78 | the code of the first failing test, or 0 and one entry more; on every error the table is unchanged; no lock is held after it |
| Cache.LithCache.Lookup | src/server/cache.c:80-92 | the earliest active entry with the key, and the read lock is held exactly when there is one |
| Cache.LithCache.HotReload | src/server/cache.c:98-125 | needs the write lock; replaces bytes and time of the one entry, or nothing on failure |
| Cache.AddMeaning | src/server/cache.c:27-74 | each return code names the first call that fails, and only a success changes the table, by the one entry |
| Cache.ReloadMeaning | src/server/cache.c:99-124 | a reload changes nothing when a call fails, and else only the bytes and the time of its slot |
| Cache.LookupAfterAdd | src/server/cache.c:63-73 | an added key is found only if no earlier entry has it |
| Cache.RunsExtend | src/server/cache.c:24-125 | over any run of adds and reloads at most 32 entries, and no slot changes its key or MIME type |
| Cache.LookupIsStable | src/server/cache.c:83-88 | a key that is found stays at the same slot whatever is added or reloaded |
| CacheProtocol.InvStep | src/server/cache.c:24-125 | every step of any worker or of the disk keeps lock discipline, entry freshness, live blocks and what each worker relies on |
| CacheProtocol.AddIsAdded | src/server/cache.c:60-73 | the publication of an add changes the table as `Cache.LithCache.Add` does |
| CacheProtocol.ReloadIsReloaded | src/server/cache.c:114-121 | the two publications of a reload, whatever the others do between, change the table as `Cache.LithCache.HotReload` does |
| CacheProtocol.WriterAlone | src/http_router.c:87-89 | while a worker holds the write lock, no step of another worker or of the disk changes the table |
| CacheProtocol.EveryLoadFaithful | src/server/cache.c:32-71 | if no path is replaced between fopen and stat of its load and no fread fails while the file is as stat'ed, every load in every reachable state read the inode that it stat'ed |
| CacheProtocol.Freshness | src/server/cache.c:32-70 | in every reachable state of such a run an entry's time is at most the disk's, and when equal the entry holds the disk's bytes, whatever was written in place between fopen, stat, each read, the end of fread and the publication |
| CacheProtocol.ServedBytesAreFresh | src/http_router.c:78-109 | in those runs, if the router's stat and needed reload succeeded and the file at the requested path has not changed since, the bytes being sent are the file's |
| CacheProtocol.SlotsOnlyAdvance | src/server/cache.c:117-121 | over every run keys and MIME types are fixed, slots stay, and `last_modified` never decreases, with any number of concurrent reloads |
| CacheProtocol.AtMost32Entries | src/server/cache.c:27-30 | in every reachable state |
| CacheProtocol.LockSafety | src/http_router.c:85-109 | a worker inside add or hot_reload excludes every reader and writer; an idle worker holds nothing |
| CacheProtocol.NeverFreedWhileSent | src/server/cache.c:117-120 | the block being sent is live and is the one its header described |
| CacheProtocol.SnapshotConsistency | src/http_router.c:97-107 | every response's length, type and bytes come from one add or reload |
| CacheAnswers.AnsweredOnce | src/http_router.c:79-110 | over every run, the paths a worker has answered are the paths it has looked up, in order, but for the one in its hands, whatever becomes of stat and reload |
| CacheAnswers.OwnStepsGoForward | src/http_router.c:79-110 | every own step takes a request in flight towards its answer |
| CacheAnswers.EveryRequestEnds | src/http_router.c:79-110 | wherever it stands, with the lock to itself a worker sends its answer by its own steps and gives the lock back |
| CacheAnswers.UndisturbedRequest | src/http_router.c:78-111 | left alone, a request that hits gets the disk's present bytes under its path, with a reload only when the file is newer, and the lock is given back |
| CacheAnswers.UndisturbedAdd | src/server/cache.c:24-78 | left alone, an add appends the file as it is |
| CacheAnswers.ReadNeverStuck | src/server/cache.c:60 | an fread goes on while there are wanted bytes and ends where the file ends |
| CacheAnswers.CallsMayFail | src/server/cache.c:32-58 | any load may fail at any point, and a read early; the worker goes on without it |
| CacheProtocol.RenameBreaksFreshness | src/server/cache.c:32-71 | a run without read errors in which the path is replaced between fopen and stat, and the entry looks fresh but is not |
| CacheProtocol.ShortReadBreaksFreshness | src/server/cache.c:60-70 | a run without replacement in which an fread fails early, with the same end |
| CacheAgreement.TransparentInEveryRun | src/http_router.c:78-133 | in any state that the interleaved server reaches, a GET over that cache and disk gets through the cache the response that it gets from the disk |
| CacheAgreement.SentAsFromDisk | src/http_router.c:97-107 | while a cached response is being sent amid other steps, head and block are those of the disk fallback for the requested path as long as that file has not changed since the stat |
| Framing.RoundTripIff | src/http_router.c:98-107 | a client reads the response back exactly when its content is shorter than 2 GiB |
| Framing.StreamRoundTrip | src/http_router.c:19-33 | a client recovers exactly the responses from their concatenation |
| Framing.OkFramed | src/http_router.c:120-132 | every 200 head announces the content's length, and announces a close exactly when the connection ends |
| Framing.ErrorFramed | src/http_router.c:19-33 | the same for error pages, where 400 always closes |
| Framing.PostBodyWhole | src/http_router.c:44-47 | the JSON answer is never cut, for every announced `long` |
| HttpParser.CopyPath | src/http_parser.c:50-54 | the loop stays before the NUL and copies the longest white-space-free prefix, cut at 255 |
| HttpParser.SkipBlanks | src/http_parser.c:67 | the pointer loop stops at the first non-blank and never passes the NUL |
| HttpParser.ReadContentLength | src/http_parser.c:56-69 | the in-buffer scan computes the announced length of the text |
| HttpParser.ReadConnection | src/http_parser.c:71-90 | the in-buffer scan computes the persistence of the text, which `ParsedFields` and `CloseIff` give without the comparison function |
| HttpParser.ParseHttpRequest | src/http_parser.c:27-99 | for every terminated buffer the code refines the pure parser, failing exactly on an unknown method |
| HttpParser.ParsedFields | src/http_parser.c:37-96 | a text parses exactly when it begins with one of the two methods; each field in terms of the text: longest word, first occurrence of the first spelling present, first blank line, and the default when there is none |
| HttpParser.CloseIff | src/http_parser.c:86-90 | the case-insensitive comparison accepts exactly the values that begin with the five letters of `close`, each in either case |
| HttpParser.MimeTypes | src/http_parser.c:105-122 | the type of every name with a known extension |
| RequestText.RequestRoundTrip | src/http_parser.c:27-99 | parsing a printed request recovers method, path, length and, for any connection value with any blanks before it, whether it closes; the body pointer points at the body |
| RequestText.BorrowedConnection | src/http_parser.c:73-91 | a request without a connection line parses with the option of whatever stands behind its head |
| Decimal.StrtolDec | src/http_parser.c:68 | reading a printed `long` gives it back |
| Decimal.StrtolText | src/http_parser.c:68-69 | white space, an optional sign, digits and whatever follows read as the number cut to the range of `long` |
| Decimal.AtoiMeaning | src/server/config.c:59 | the `int` that agrees with `strtol` in its low 32 bits |
| Paths.SafePathNeverGoesUp | src/server/utils.c:19-27 | no segment of an accepted path is `..` |
| Paths.RootContainment | src/server/utils.c:19-27 | what the router opens for an accepted path with a leading slash lies inside the directory, from any working directory, at every prefix of the walk |
| Paths.ContainmentIff | src/http_router.c:62-76 | for every directory and accepted path, what the router opens is inside exactly under the stated condition on the way both are written |
| Paths.DotDirectoryEscapes | src/http_router.c:68-76 | with the directory `.` the accepted path `./x` opens `../x` |
| Paths.EmptyRootEscapes | src/http_router.c:68-76 | with an empty public directory `/` opens `/index.html` at the root of the file system |
| Router.JoinPath | src/http_router.c:68-76 | the strncpy and strcat sequence builds directory plus suffix inside its 512 bytes |
| Router.JoinedPathFits | src/server/config.c:59-61 | for every configuration file and every parsed request the joined path needs at most 511 bytes |
| Router.ServeFile | src/http_router.c:78-137 | the lock handover sends the response of the fetch specification and ends with no lock held |
| Router.HandleHttpRoute | src/http_router.c:35-139 | every branch sends exactly the specified response, which `Replies` reads, and ends with no lock held |
| Replies.GetReads | src/http_router.c:61-137 | every answer to a GET as a client reads it: 403 exactly for two dots in a row; else the cached type and bytes; else the file and the type of its name; else 404; with length and connection fields |
| Replies.PostReads | src/http_router.c:42-60 | every answer to a POST reads as 200 with a JSON object whose last number is the announced length |
| Router.RouteFilters | src/http_router.c:62-76 | what is opened for an accepted path is inside exactly as `ContainmentIff` says; the other paths get 403 whatever cache and disk hold |
| Router.RouteFramed | src/http_router.c:35-139 | every routed response is framed and announces close or keep-alive exactly as the request asked |
| Router.TransparencyIff | src/http_router.c:78-133 | over a cache that agrees with the disk, cached and disk responses are the same bytes exactly when the file is not cached and gone |
| Router.CacheTransparentIff | src/http_router.c:78-133 | over any cache and disk, cached and disk responses to a request are the same bytes exactly when the entry that answers has the type and the bytes, or an older time, of the file at the path |
| Router.PrimedTransparent | src/server_worker.c:40-45 | with at most 244 bytes of directory the primed cache is transparent after any in-place writes |
| Router.PrimedPages | src/server_worker.c:40-45 | both pages, when on the disk and not too large, are found in the primed cache |
| Router.LongDirNotTransparent | src/server/cache.c:64-65 | with a longer one the cut key answers for a file that does not exist |
| Router.PrimedTransparentIff | src/server_worker.c:40-45 | for every disk, the primed cache is transparent for all requests exactly for at most 244 bytes, or 254, or when each primed entry stands for the file at its own cut key |
| Router.PrimedTransparentByLength | src/server/cache.c:64-65 | with an index page of at most 1 MiB on the disk and nothing at its cut key, exactly for at most 244 bytes, or 254 |
| Session.FillProperties | src/server_worker.c:264-280 | on exit the body is complete, the buffer full or the peer failed; the count matches the bytes, which are the reads in order |
| Session.FillBody | src/server_worker.c:264-280 | the in-place loop keeps the buffer bounded and NUL-terminated and equals its specification |
| Session.HandleRequest | src/server_worker.c:262-290 | parse, complete the body, run the router over the shared cache or answer 400, decide whether to go on, and end with no lock held |
| Session.ServeSession | src/server_worker.c:252-294 | the loop's whole output is the specified replies, in order, and no lock is held after it |
| Session.SessionRoundTrip | src/server_worker.c:255-294 | whatever the peer sends, a client recovers exactly one response per parsed request and at most one final 400 |
| Replies.SessionReads | src/server_worker.c:255-294 | the messages of a session are the router's answers to its requests, in order, and 400 with a close for text that does not parse |
| Session.PersistenceAgreement | src/server_worker.c:282-293 | the server stops by its own choice exactly after the response that carries `Connection: close`; every other response carries `Connection: keep-alive`; no unknown method is routed |
| Session.HeadsNeverCut | src/http_router.c:19-60 | no head sent in any session is cut by its 384-byte buffer |
| Session.AnsweredInOrder | src/server_worker.c:255-294 | well-formed requests that fit the 4095-byte buffer, each head in a read of its own and bodies cut anywhere, are answered one by one, in order, until one asks to close |
| Session.LeftOver | src/server_worker.c:264-280 | the body loop leaves exactly the bytes past the first 4095 of the request in front of what follows, so nothing of its own exactly when the request fits |
| Session.HeadTakenForBody | src/server_worker.c:264-279 | when the blank line has not come with the first read, the loop counts every further byte as body and stops after the announced number |
| Session.NoBodyRead | src/server_worker.c:264-271 | a GET reads no body whatever it announces, nor does a POST beyond what it announces |
| Session.BodyTakenForRequest | src/server_worker.c:264-290 | the session then answers those left-over body bytes as the next request |
| Session.BytesBehindAreLost | src/server_worker.c:255-290 | bytes behind a request with its own connection header, and behind its body, in the same read change no reply |
| Session.BytesBehindIff | src/http_parser.c:73-91 | behind a request without one they change no reply exactly when the first connection header of the whole buffer means the same with them and without |
| Session.PipelinedCloseTaken | src/http_parser.c:73-91 | the `Connection: close` of a second request in the same read closes the session after the first |
| Session.BytesBehindBodyAreLost | src/server_worker.c:271-279 | bytes behind the end of a body in the read that completes it change no reply |
| Redirect.CopyPiece | src/server_worker.c:177-194 | a piece that fits is copied and terminated, else the default stays |
| Redirect.BuildRedirect | src/server_worker.c:164-209 | the buffer code sends the specified answer for the first 1023 bytes of whatever has arrived |
| Redirect.PeekedIs | src/server_worker.c:165-166 | the peek holds all that has arrived up to 1023 bytes |
| Replies.RedirectReads | src/server_worker.c:198-206 | a client reads the redirect as 301 with its Location, no content and a close |
| Replies.RedirectStatus | src/server_worker.c:198-206 | whatever was sent, the answer begins with the 301 status line |
| Redirect.NeverCut | src/server_worker.c:198-206 | for every peeked text the answer has at most 622 bytes and is never cut |
| Redirect.RedirectTarget | src/server_worker.c:164-206 | for any headers around the host line and any part of the request that has arrived, the answer names the requested host and path exactly when both have arrived in the peeked 1023 bytes and the first `Host: ` is the header's own or names the same host, or the defaults coincide |
| Redirect.LateHostMissed | src/server_worker.c:165-195 | a host line that ends beyond the 1023 peeked bytes is sent to the default host |
| Redirect.ForwardedHostWins | src/server_worker.c:185-195 | an `X-Forwarded-Host` header before the host line decides the target |
| Redirect.PathTakenForHost | src/server_worker.c:185-195 | a path that ends with `Host:` makes `HTTP/1.1` the host |
| Redirect.OtherSpelling | src/server_worker.c:169-195 | a text without `Host: `, however it spells the header, is sent to the default host |
| Redirect.DefaultsWhenTooLong | src/server_worker.c:177-194 | when the first `Host: ` is the header's own, a piece over 255 bytes, or one whose end has not arrived in the peeked bytes, falls back to its default |
| Redirect.AnswerFramed | src/server_worker.c:198-206 | for every peeked text, a client that ends lines at CRLF reads the answer as one empty message with the five printed lines exactly when the path holds no CRLF |
| Redirect.AnswerSplits | src/server_worker.c:198-206 | a CRLF inside the path makes the client read one header line more, which the request chose |
| Redirect.AnswerFramedLf | src/server_worker.c:198-206 | a client that ends lines at a bare LF too reads the five printed lines exactly when neither host nor path holds a newline |
| Config.Fgets | src/server/config.c:25-26 | the line buffer holds the next line of at most 255 bytes and a NUL |
| Config.SkipSpaces | src/server/config.c:40-41 | the pointer loop stops where the trimmed text begins |
| Config.TrimEndInPlace | src/server/config.c:44-54 | the backward loop leaves the trimmed text and touches nothing else |
| Config.SplitLine | src/server/config.c:32-54 | cutting and trimming in place yields the trimmed key and value |
| Config.ServerConfig.Set | src/server/config.c:57-71 | in the 256-byte fields, the one that has the key under either spelling holds the value cut at 255, and every other field is as before |
| Config.ServerConfig.LoadConfig | src/server/config.c:12-77 | the loop equals the pure load, whose lines `LoadPaddedLine` and `SkippedIff` pin; a missing file gives the defaults |
| Config.LoadIsFold | src/server/config.c:26-71 | loading is a left fold over the lines |
| Config.LinesAppendIff | src/server/config.c:26 | lines of two files in a row are the lines of each exactly when the first is closed |
| Config.LoadAppend | src/server/config.c:26-71 | loading a closed file and another is loading the second from what the first left |
| Config.UnclosedAppendFails | src/server/config.c:26-71 | without the newline it is not |
| Config.LastAssignmentWins | src/server/config.c:57-70 | each field ends as its last line says, across synonym keys, or as it began |
| Config.ValuesFit | src/server/config.c:59-69 | the bounded copies never cut a value |
| Config.LoadedPathsFit | src/server/config.c:59-69 | every loaded path has at most 255 bytes |
| Config.PrintLoad | src/server/config.c:12-77 | printing a configuration and loading it gives it back |
| Config.LoadPaddedLine | src/server/config.c:26-71 | a line with any of the six white-space bytes around its key and value assigns exactly that key and value |
| Config.SkippedIff | src/server/config.c:28-34 | the lines that assign nothing are exactly comments, empty lines and those without `=` |
| Config.SevenKeys | src/server/config.c:57-71 | the seven keys and the fields they assign |

## Left out

- OpenSSL, handshakes, certificates, socket options, bind, listen, accept, Windows branches, the daemon (which first makes a relative public directory absolute), logging, signals and the command line: foreign calls. SSL_read is a script of pieces of any size and failures; SSL_write appends to an output.
- Symbolic links: a path is resolved by its segments alone.
- The clients of sessions end header lines at CRLF; only the redirect, whose lines hold request text, is also read by one that accepts a bare LF.
- Choosing between cleartext and TLS by the first byte is a nondeterministic choice of `WorkerProtocol`.
- Destroying the mutex, the condition variable, the lock and the cache: shutdown is setting the flag and broadcasting, by a thread of its own.
- The static buffer of the error page: the page is a function of the status, so framing of error responses is per worker. Its HTML text is a parameter.
- `read_file` is the file's content or nothing: a file that shrinks between ftell and fread, and allocation failure, are not modelled there.
- `CacheProtocol` has keys of at most 255 bytes, times that strictly grow with every change of a path, and no removal of files; the cut of longer keys is in `Cache` and `Router`.
- Allocation of zero bytes in `lith_cache_add` and the reload counts as success, and `time_t` is unbounded.
- The 1 MiB limit is checked by `Cache.LithCache.Add` only, as in the code; reloads are unbounded.
- A limit of 100 requests per connection is announced in the header but enforced nowhere in the code. `bytes_processed` echoes the announced length, not the bytes received.
- CacheAgreement.TransparentInEveryRun: adds must give the MIME type of the file's name, as the two primed pages do, and the response is evaluated on one state; `CacheAgreement.SentAsFromDisk` has the interleaved send.
- Session.HandleRequest: what the other workers do to the cache between two requests of a session is any table of at most 32 entries.
- Redirect.RedirectTarget: pieces of at most 255 bytes; `Redirect.DefaultsWhenTooLong` has the longer ones.
- Session.SessionRoundTrip: contents are below 2 GiB and MIME types are header text, since beyond that framing fails.
- `method_to_str` and the client-side files under `public/`.
